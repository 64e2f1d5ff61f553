// pkg/registry/registry.go: the angels table as a map from id to row.
module Registry {
  // The lifecycle states of a row, and of an entry in memory.
  datatype Life = Created | Training | Active | Unstable | Contained | Terminated

  datatype Row = Row(life: Life, pid: nat, restarts: nat)

  type Table = map<string, Row>

  // INSERT fails on an existing primary key, and SpawnAngel ignores the failure.
  function InsertAngel(t: Table, id: string): Table {
    if id in t then t else t[id := Row(Created, 0, 0)]
  }

  function UpdateState(t: Table, id: string, life: Life): Table {
    if id in t then t[id := t[id].(life := life)] else t
  }

  function UpdatePID(t: Table, id: string, pid: nat): Table {
    if id in t then t[id := t[id].(pid := pid)] else t
  }

  // The three ways IncrementRestarts can end.
  datatype Outcome = Counted | UpdateFailed | ReadBackFailed

  // The new table and the count returned, 0 on any error.
  function IncrementRestarts(t: Table, id: string, outcome: Outcome): (Table, nat) {
    var bumped := if id in t then t[id := t[id].(restarts := t[id].restarts + 1)] else t;
    match outcome
    case UpdateFailed => (t, 0)
    case ReadBackFailed => (bumped, 0)
    case Counted => (bumped, if id in t then t[id].restarts + 1 else 0)
  }

  // The ids ListRecoverableAngels returns, in whatever order.
  function Recoverable(t: Table): set<string> {
    set id | id in t && (t[id].life == Active || t[id].life == Training)
  }

  function MarkStale(t: Table): Table {
    map id | id in t :: if t[id].life == Terminated then t[id] else Row(Created, 0, t[id].restarts)
  }

  // No row disappears and no restart count falls.
  predicate CountsKept(t: Table, t': Table) {
    forall id :: id in t ==> id in t' && t'[id].restarts >= t[id].restarts
  }
}
