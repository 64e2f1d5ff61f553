// internal/lab/supervisor.go on its own objects: each method does to the entry it
// addresses, and to the registry, what the step system says, and nothing else.
module Supervisor {
  import opened Option
  import opened Registry
  import opened Connection
  import opened SupervisorModel
  import IdGenerator

  class AngelEntry {
    const id: string
    const connTrack: ConnTracker
    var state: Life
    var restartCount: nat
    var pid: nat
    var conn: Option<nat>
    var lastHeartbeat: Option<int>

    function View(): Core
      reads this, connTrack
    {
      Core(id, state, restartCount, pid, conn, lastHeartbeat, connTrack.View())
    }

    constructor (id: string)
      ensures View() == NewCore(id) && fresh(connTrack)
      ensures state == Created && restartCount == pid == 0 && conn == None && lastHeartbeat == None
      ensures connTrack.state == Connecting && connTrack.recoveryTimer == NoTimer
    {
      this.id := id;
      state, restartCount, pid, conn, lastHeartbeat := Created, 0, 0, None, None;
      var ct := new ConnTracker();
      var ok := ct.TransitionTo(Connecting);
      connTrack := ct;
    }

    // What runAngel does once cmd.Wait has returned.
    method AfterExit()
      modifies this
      ensures View() == OnExit(old(View()))
      ensures state == Unstable && conn == None && pid == old(pid) && lastHeartbeat == old(lastHeartbeat)
    {
      state := Unstable;
      conn := None;
    }

    // entry_resetConn
    method ResetForRestart()
      modifies this, connTrack
      ensures View() == OnRestart(old(View()))
      ensures conn == None && lastHeartbeat == None && state == old(state) && pid == old(pid)
      ensures connTrack.state == Connecting && connTrack.recoveryTimer == NoTimer
    {
      conn := None;
      lastHeartbeat := None;
      connTrack.Reset();
    }
  }

  // checkHeartbeats on the records and rows of all ids except those still left.
  ghost function CheckedViews(views: map<string, Core>, left: set<string>, now: int, timeout: int): map<string, Core> {
    map id | id in views ::
      if id !in left && Late(views[id], now, timeout) then views[id].(life := Unstable) else views[id]
  }

  ghost function CheckedRows(rows: Table, views: map<string, Core>, left: set<string>, now: int, timeout: int): Table {
    map id | id in rows ::
      if id in views && id !in left && Late(views[id], now, timeout) then rows[id].(life := Unstable) else rows[id]
  }

  // The stale processes boot recovery kills for the listed ids.
  function Victims(rows: Table, ids: seq<string>, verified: nat -> bool): set<nat> {
    set id | id in ids && id in rows && rows[id].pid > 0 && verified(rows[id].pid) :: rows[id].pid
  }

  lemma VictimsStep(rows: Table, ids: seq<string>, id: string, verified: nat -> bool)
    requires id in rows
    ensures Victims(rows, ids + [id], verified)
            == Victims(rows, ids, verified)
               + if rows[id].pid > 0 && verified(rows[id].pid) then {rows[id].pid} else {}
  {
  }

  lemma RecoverableMeans(rows: Table, ids: seq<string>)
    requires (set id | id in ids) == Recoverable(rows)
    ensures forall id :: id in ids <==> id in rows && rows[id].life in {Active, Training}
  {
    assert forall id :: id in ids <==> id in Recoverable(rows);
  }

  lemma VictimsMean(rows: Table, ids: seq<string>, verified: nat -> bool)
    requires forall id :: id in ids <==> id in rows && rows[id].life in {Active, Training}
    ensures forall pid :: pid in Victims(rows, ids, verified)
              <==> && pid > 0 && verified(pid)
                   && exists id :: id in rows && rows[id].life in {Active, Training} && rows[id].pid == pid
  {
  }

  lemma UpdatedMap(m: map<string, Core>, m': map<string, Core>, id: string)
    requires m'.Keys == m.Keys && id in m
    requires forall x :: x in m && x != id ==> m'[x] == m[x]
    ensures m' == m[id := m'[id]]
  {
  }

  lemma CheckedStep(rows: Table, views: map<string, Core>, left: set<string>, id: string, now: int, timeout: int)
    requires id in left && id in views
    ensures CheckedViews(views, left, now, timeout)[id] == views[id]
    ensures CheckedViews(views, left - {id}, now, timeout)
            == CheckedViews(views, left, now, timeout)[id :=
                 if Late(views[id], now, timeout) then views[id].(life := Unstable) else views[id]]
    ensures var rows' := CheckedRows(rows, views, left, now, timeout);
            CheckedRows(rows, views, left - {id}, now, timeout)
            == if Late(views[id], now, timeout) then UpdateState(rows', id, Unstable) else rows'
  {
  }

  class Supervisor {
    var angels: map<string, AngelEntry>
    var reg: Table
    const maxRestarts: int
    const heartbeatTimeout: int

    // No two ids share an entry or a tracker, and no row has the empty id.
    ghost predicate Valid()
      reads this, angels.Values
    {
      && (forall id :: id in angels ==> angels[id].id == id)
      && "" !in reg
      && (forall i, j :: i in angels && j in angels && i != j ==> angels[i].connTrack != angels[j].connTrack)
    }

    // The objects an angel id stands for.
    ghost function Objects(id: string): set<object>
      reads this
    {
      if id in angels then {angels[id], angels[id].connTrack} else {}
    }

    // The table is one that earlier Labs wrote.
    constructor (maxRestarts: int, heartbeatTimeout: int, reg: Table)
      requires "" !in reg
      ensures Valid() && angels == map[] && this.reg == reg
      ensures this.maxRestarts == maxRestarts && this.heartbeatTimeout == heartbeatTimeout
    {
      this.maxRestarts, this.heartbeatTimeout := maxRestarts, heartbeatTimeout;
      this.reg := reg;
      angels := map[];
    }

    method SpawnAngel(requested: string) returns (id: string, entry: AngelEntry)
      requires Valid()
      modifies this
      ensures Valid() && fresh(entry) && fresh(entry.connTrack)
      ensures id != "" && if requested == "" then id !in old(angels) else id == requested
      ensures angels == old(angels)[id := entry] && entry.View() == NewCore(id)
      ensures reg == UpdateState(InsertAngel(old(reg), id), id, Created)
      ensures id in reg && reg[id] == if id in old(reg) then old(reg)[id].(life := Created) else Row(Created, 0, 0)
      ensures forall x :: x != id ==> (x in reg <==> x in old(reg)) && (x in reg ==> reg[x] == old(reg)[x])
    {
      id := requested;
      if id == "" {
        var probes;
        id, probes := IdGenerator.GenerateID(angels.Keys);
      }
      reg := InsertAngel(reg, id);
      reg := UpdateState(reg, id, Created);
      entry := new AngelEntry(id);
      angels := angels[id := entry];
    }

    method RegisterConn(id: string, conn: nat) returns (ok: bool)
      requires Valid()
      modifies this`reg, Objects(id)
      ensures Valid() && ok == (id in angels)
      ensures ok ==> angels[id].View() == OnRegister(old(angels[id].View()), conn)
      ensures ok ==> angels[id].conn == Some(conn) && angels[id].state == Training
      ensures ok ==> angels[id].connTrack.state == Registered && angels[id].connTrack.recoveryTimer == NoTimer
      ensures ok && id in old(reg) ==> id in reg && reg[id] == old(reg)[id].(life := Training)
      ensures forall x :: x in angels && x != id ==> angels[x].View() == old(angels[x].View())
      ensures reg == if ok then UpdateState(old(reg), id, Training) else old(reg)
    {
      if id !in angels {
        return false;
      }
      var entry := angels[id];
      var wasRecovering := entry.connTrack.Recover();
      entry.conn := Some(conn);
      entry.state := Training;
      var moved := entry.connTrack.TransitionTo(Registered);
      reg := UpdateState(reg, id, Training);
      return true;
    }

    method HandleHeartbeat(id: string, at: int)
      requires Valid()
      modifies this`reg, Objects(id)
      ensures Valid()
      ensures id in angels ==> angels[id].View() == OnHeartbeat(old(angels[id].View()), at)
      ensures id in angels ==> angels[id].state == Active && angels[id].lastHeartbeat == Some(at)
      ensures id in angels && old(angels[id].state) == Training && old(angels[id].connTrack.state) == Registered ==>
                angels[id].connTrack.state == LinkActive
      ensures id in angels && id in old(reg) && old(angels[id].state) == Training ==>
                id in reg && reg[id] == old(reg)[id].(life := Active)
      ensures forall x :: x in angels && x != id ==> angels[x].View() == old(angels[x].View())
      ensures reg == if id in angels && old(angels[id].state) == Training then UpdateState(old(reg), id, Active)
                     else old(reg)
    {
      if id !in angels {
        return;
      }
      var entry := angels[id];
      var wasTraining := entry.state == Training;
      entry.lastHeartbeat := Some(at);
      entry.state := Active;
      if wasTraining {
        var moved := entry.connTrack.TransitionTo(LinkActive);
        reg := UpdateState(reg, id, Active);
      }
    }

    method MarkConnLost(id: string)
      requires Valid()
      modifies Objects(id)
      ensures Valid()
      ensures id in angels ==> angels[id].View() == OnDrop(old(angels[id].View()))
      ensures id in angels ==> angels[id].conn == None && angels[id].state == old(angels[id].state)
      ensures id in angels && old(angels[id].connTrack.state) in {Connecting, Registered, LinkActive} ==>
                angels[id].connTrack.state == Recovering && angels[id].connTrack.recoveryTimer == Armed
      ensures forall x :: x in angels && x != id ==> angels[x].View() == old(angels[x].View())
    {
      if id !in angels {
        return;
      }
      var entry := angels[id];
      entry.conn := None;
      var opens := entry.connTrack.Lose();
    }

    // The timer's function of an entry; verified tells whether /proc shows an angel.
    method OnRecoveryTimer(entry: AngelEntry, verified: nat -> bool) returns (killed: Option<nat>)
      ensures killed == if entry.connTrack.state == Recovering && entry.pid > 0 && verified(entry.pid)
                        then Some(entry.pid) else None
    {
      var expired := entry.connTrack.OnTimer();
      if expired && entry.pid > 0 && verified(entry.pid) {
        return Some(entry.pid);
      }
      return None;
    }

    // All records, as the step system has them.
    ghost function Views(): map<string, Core>
      reads this, angels.Values, set id | id in angels :: angels[id].connTrack
    {
      map id | id in angels :: angels[id].View()
    }

    // checkHeartbeats, visiting the entries in any order.
    method CheckHeartbeats(now: int)
      requires Valid()
      modifies this`reg, angels.Values
      ensures Valid()
      ensures Views() == CheckedViews(old(Views()), {}, now, heartbeatTimeout)
      ensures reg == CheckedRows(old(reg), old(Views()), {}, now, heartbeatTimeout)
      ensures forall id :: id in angels ==>
                var late := && old(angels[id].state) == Active && old(angels[id].lastHeartbeat).Some?
                            && now - old(angels[id].lastHeartbeat).value > heartbeatTimeout;
                && angels[id].state == (if late then Unstable else old(angels[id].state))
                && (id in old(reg) ==>
                      id in reg && reg[id] == if late then old(reg)[id].(life := Unstable) else old(reg)[id])
    {
      ghost var before := Views();
      CheckAll(now);
      forall id | id in angels
        ensures angels[id].state == CheckedViews(before, {}, now, heartbeatTimeout)[id].life
        ensures before[id] == old(angels[id].View())
      {
        assert Views()[id] == angels[id].View();
      }
    }

    // The loop of checkHeartbeats.
    method CheckAll(now: int)
      requires Valid()
      modifies this`reg, angels.Values
      ensures Valid()
      ensures Views() == CheckedViews(old(Views()), {}, now, heartbeatTimeout)
      ensures reg == CheckedRows(old(reg), old(Views()), {}, now, heartbeatTimeout)
    {
      ghost var before := Views();
      var left := angels.Keys;
      assert CheckedViews(before, left, now, heartbeatTimeout) == before;
      assert CheckedRows(reg, before, left, now, heartbeatTimeout) == reg;
      while left != {}
        invariant Valid() && left <= angels.Keys
        invariant Views() == CheckedViews(before, left, now, heartbeatTimeout)
        invariant reg == CheckedRows(old(reg), before, left, now, heartbeatTimeout)
        decreases left
      {
        var id :| id in left;
        CheckedStep(old(reg), before, left, id, now, heartbeatTimeout);
        CheckOne(id, now);
        left := left - {id};
      }
    }

    method CheckOne(id: string, now: int)
      requires Valid() && id in angels
      modifies this`reg, angels[id]
      ensures Valid()
      ensures var c := old(Views())[id];
              && Views() == old(Views())[id := if Late(c, now, heartbeatTimeout) then c.(life := Unstable) else c]
              && reg == if Late(c, now, heartbeatTimeout) then UpdateState(old(reg), id, Unstable) else old(reg)
    {
      ghost var before := Views();
      var entry := angels[id];
      if entry.state == Active && entry.lastHeartbeat.Some? && now - entry.lastHeartbeat.value > heartbeatTimeout {
        entry.state := Unstable;
        reg := UpdateState(reg, id, Unstable);
      }
      forall x | x in angels && x != id
        ensures Views()[x] == before[x]
      {
        assert angels[x] != entry;
      }
      UpdatedMap(before, Views(), id);
    }

    // The angel of an id is a new object that no operation has touched yet.
    ghost predicate Respawned(id: string, before: set<object>)
      reads this, angels.Values, set x | x in angels :: angels[x].connTrack
    {
      id in angels && angels[id] !in before && angels[id].View() == NewCore(id)
    }

    // BootRecovery over the rows ListRecoverableAngels returned, in its order; verified
    // tells whether /proc shows an angel under a pid.
    method BootRecovery(recoverable: seq<string>, verified: nat -> bool) returns (killed: set<nat>)
      requires Valid() && (set id | id in recoverable) == Recoverable(reg)
      modifies this
      ensures Valid() && reg == MarkStale(old(reg))
      ensures forall id :: id in angels
                <==> id in old(angels) || (id in old(reg) && old(reg)[id].life in {Active, Training})
      ensures forall id :: id in old(reg) && old(reg)[id].life in {Active, Training} ==>
                Respawned(id, old(angels.Values))
      ensures forall id :: id in old(angels) && !(id in old(reg) && old(reg)[id].life in {Active, Training}) ==>
                angels[id] == old(angels)[id]
      ensures forall id :: id in old(reg) ==>
                reg[id] == if old(reg)[id].life == Terminated then old(reg)[id]
                           else Row(Created, 0, old(reg)[id].restarts)
      ensures forall pid :: pid in killed
                <==> && pid > 0 && verified(pid)
                     && exists id ::
                          id in old(reg) && old(reg)[id].life in {Active, Training} && old(reg)[id].pid == pid
    {
      var listed := reg;   // pids and all, before MarkStale clears them
      reg := MarkStale(reg);
      killed := RecoverAll(recoverable, listed, verified);
      RecoverableMeans(listed, recoverable);
      VictimsMean(listed, recoverable, verified);
    }

    // The loop of BootRecovery.
    method RecoverAll(recoverable: seq<string>, listed: Table, verified: nat -> bool) returns (killed: set<nat>)
      requires Valid() && (set id | id in recoverable) == Recoverable(listed) && reg == MarkStale(listed)
      modifies this
      ensures Valid() && reg == old(reg) && angels.Keys == old(angels).Keys + set id | id in recoverable
      ensures forall id :: id in recoverable ==> Respawned(id, old(angels.Values))
      ensures forall id :: id in old(angels) && id !in recoverable ==> angels[id] == old(angels)[id]
      ensures killed == Victims(listed, recoverable, verified)
    {
      killed := {};
      for i := 0 to |recoverable|
        invariant Valid() && reg == MarkStale(listed)
        invariant angels.Keys == old(angels).Keys + set id | id in recoverable[..i]
        invariant forall id :: id in recoverable[..i] ==> Respawned(id, old(angels.Values))
        invariant forall id :: id in old(angels) && id !in recoverable[..i] ==> angels[id] == old(angels)[id]
        invariant killed == Victims(listed, recoverable[..i], verified)
      {
        var a := recoverable[i];
        assert recoverable[..i + 1] == recoverable[..i] + [a];
        assert a in Recoverable(listed);
        VictimsStep(listed, recoverable[..i], a, verified);
        var victim := RecoverOne(a, listed, verified, recoverable[..i], old(angels.Values));
        killed := killed + victim;
      }
      assert recoverable[..|recoverable|] == recoverable;
    }

    // One listed row: kill its process if it is still an angel, and respawn it; those
    // respawned before stay as they are.
    method RecoverOne(id: string, listed: Table, verified: nat -> bool,
                      ghost done: seq<string>, ghost before: set<object>) returns (victim: set<nat>)
      requires Valid() && id in listed && id in reg && reg[id].life == Created
      requires forall x :: x in done ==> Respawned(x, before)
      modifies this
      ensures Valid() && reg == old(reg) && id in angels && angels == old(angels)[id := angels[id]]
      ensures fresh(angels[id]) && angels[id].View() == NewCore(id)
      ensures forall x :: x in done ==> Respawned(x, before)
      ensures victim == if listed[id].pid > 0 && verified(listed[id].pid) then {listed[id].pid} else {}
    {
      victim := if listed[id].pid > 0 && verified(listed[id].pid) then {listed[id].pid} else {};
      assert id != "";
      var id', entry := SpawnAngel(id);
      assert UpdateState(InsertAngel(old(reg), id), id, Created) == old(reg);
    }

    // TerminateAngel: signal the process if it is an angel, and say so in the row.
    method TerminateAngel(id: string, verified: nat -> bool) returns (ok: bool, killed: Option<nat>)
      requires Valid()
      modifies `reg
      ensures Valid() && ok == (id in angels)
      ensures killed == if ok && angels[id].pid > 0 && verified(angels[id].pid) then Some(angels[id].pid) else None
      ensures reg == if ok then UpdateState(old(reg), id, Terminated) else old(reg)
      ensures ok && id in old(reg) ==> id in reg && reg[id] == old(reg)[id].(life := Terminated)
    {
      if id !in angels {
        return false, None;
      }
      var pid := angels[id].pid;
      killed := if pid > 0 && verified(pid) then Some(pid) else None;
      reg := UpdateState(reg, id, Terminated);
      return true, killed;
    }

    // The restart policy of runAngel after an exit.
    method ApplyRestartPolicy(entry: AngelEntry, outcome: Outcome) returns (again: bool)
      requires Valid()
      modifies this`reg, entry`restartCount
      ensures Valid()
      ensures var (rows, count) := IncrementRestarts(old(reg), entry.id, outcome);
              && entry.View() == old(entry.View()).(restarts := count)
              && again == (count < maxRestarts) && entry.restartCount == count
              && reg == if again then rows else UpdateState(rows, entry.id, Contained)
      ensures entry.id in old(reg) && outcome == Counted ==>
                var n := old(reg)[entry.id].restarts + 1;
                && again == (n < maxRestarts) && entry.restartCount == n && entry.id in reg
                && reg[entry.id].restarts == n && reg[entry.id].pid == old(reg)[entry.id].pid
                && reg[entry.id].life == if n < maxRestarts then old(reg)[entry.id].life else Contained
      ensures entry.id in old(reg) && outcome != Counted ==>
                && again == (0 < maxRestarts) && entry.restartCount == 0 && entry.id in reg
                && reg[entry.id].restarts == old(reg)[entry.id].restarts + if outcome == ReadBackFailed then 1 else 0
    {
      var (rows, count) := IncrementRestarts(reg, entry.id, outcome);
      reg := rows;
      entry.restartCount := count;
      if count >= maxRestarts {
        reg := UpdateState(reg, entry.id, Contained);
        return false;
      }
      return true;
    }
  }
}
