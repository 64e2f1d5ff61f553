// What a run of the supervisor makes of its angels: who is signalled, what the registry
// says, and what can happen next.
module SupervisorOutcomes {
  import opened Option
  import opened Registry
  import opened Connection
  import opened SupervisorModel
  import opened SupervisorSafety
  import opened SupervisorRuns
  import opened SupervisorWindows

  // --------------------------------------------------------------------------
  // Signals
  // --------------------------------------------------------------------------

  // The function of a timer kills exactly if a window of its entry is open: its own, not
  // closed since it opened, or one opened after the timer fired and not closed since.
  lemma ExpiryKills(ss: seq<State>, evs: seq<Event>, cfg: Config, j: nat, i: nat, k: nat, e: nat, n: nat)
    requires IsRun(ss, evs, cfg) && Expiry(ss, evs, j, i, k, e, n)
    ensures Enabled(ss[k], evs[k]) && e in ss[k].entries
    ensures var pid := ss[k].entries[e].core.pid;
            Kills(ss[k], evs[k])
            == if pid > 0 && pid in ss[k].procs && ss[k].procs[pid]
                  && (StaysOpen(ss, evs, j, k, e)
                      || exists l :: i < l < k && OpensAt(ss[l], evs[l], e) && StaysOpen(ss, evs, l, k, e))
               then {pid} else {}
  {
    ExpiryActs(ss, evs, cfg, j, i, k, e, n);
  }

  // A termination signals the process of the entry the id names, a boot every process an
  // ACTIVE or TRAINING row records, each only if it is an angel; nothing else signals.
  lemma OtherKills(s: State, ev: Event)
    requires Enabled(s, ev) && !ev.Expire?
    ensures forall pid :: pid in Kills(s, ev)
              <==> && pid > 0 && pid in s.procs && s.procs[pid]
                   && match ev
                      case Terminate(id) => Known(s, id) && s.entries[s.table[id]].core.pid == pid
                      case Boot(_) =>
                        exists id :: && id in s.rows && s.rows[id].pid == pid
                                     && (s.rows[id].life == Active || s.rows[id].life == Training)
                      case _ => false
  {
    if ev.Boot? {
      assert forall id :: id in ev.order <==> id in Recoverable(s.rows);
    }
  }

  // --------------------------------------------------------------------------
  // Starts, exits, restarts
  // --------------------------------------------------------------------------

  // A start is on record in the entry, the row, and the list of processes.
  lemma StartRecorded(ss: seq<State>, evs: seq<Event>, cfg: Config, k: nat, e: nat, pid: nat)
    requires IsRun(ss, evs, cfg) && k < |evs| && evs[k] == Started(e, pid)
    ensures At(ss[k + 1], e, Waiting) && ss[k + 1].entries[e].core.pid == pid
    ensures var id := ss[k + 1].entries[e].core.id;
            && id in ss[k].rows && id in ss[k + 1].rows
            && ss[k + 1].rows[id] == Row(Training, pid, ss[k].rows[id].restarts)
    ensures Verified(ss[k + 1], pid) && pid in ss[k + 1].children && ss[k + 1].children[pid] == e
  {
    Reachable(ss, evs, cfg, k);
  }

  // An exit leaves the link and its window alone, and pauses if the window is open.
  lemma ExitOutcome(s: State, e: nat, cfg: Config)
    requires Enabled(s, Exited(e))
    ensures var s' := Step(s, Exited(e), cfg);
            && e in s'.entries
            && s'.entries[e].core.life == Unstable && s'.entries[e].core.conn == None
            && s'.entries[e].core.track == s.entries[e].core.track
            && At(s', e, if IsOpen(s, e) then Pausing else Exiting)
            && s.entries[e].core.pid !in s'.procs && s'.rows == s.rows
  {
  }

  // The restart policy.  A restart that is counted and stays below the limit leads to a
  // restart; one that reaches it contains the angel.  One that is not counted is taken
  // for the zeroth.
  lemma RestartOutcome(ss: seq<State>, evs: seq<Event>, cfg: Config, k: nat, e: nat, outcome: Outcome)
    requires IsRun(ss, evs, cfg) && k < |evs| && evs[k] == Decide(e, outcome)
    ensures e in ss[k].entries && ss[k].entries[e].core.id in ss[k].rows && e in ss[k + 1].entries
    ensures ss[k].entries[e].core.id in ss[k + 1].rows
    ensures var id := ss[k].entries[e].core.id;
            var row, row' := ss[k].rows[id], ss[k + 1].rows[id];
            var count := if outcome == Counted then row.restarts + 1 else 0;
            && ss[k + 1].entries[e].core.restarts == count
            && row'.restarts == row.restarts + (if outcome == UpdateFailed then 0 else 1)
            && (count < cfg.maxRestarts ==> At(ss[k + 1], e, BackingOff) && row'.life == row.life)
            && (count >= cfg.maxRestarts ==> At(ss[k + 1], e, Done) && row'.life == Contained)
  {
    Reachable(ss, evs, cfg, k);
  }

  // The restart itself starts over: no connection, no heartbeat, no timer.
  lemma RestartFresh(s: State, e: nat, cfg: Config)
    requires Enabled(s, Restart(e))
    ensures var s' := Step(s, Restart(e), cfg);
            && At(s', e, Launching) && s'.rows == s.rows
            && s'.entries[e].core.conn == None && s'.entries[e].core.lastBeat == None
            && s'.entries[e].core.track == Tracker(Connecting, NoTimer)
  {
  }

  // A goroutine that returns leaves its last word in the row.
  lemma LastWord(ss: seq<State>, evs: seq<Event>, cfg: Config, k: nat, e: nat)
    requires IsRun(ss, evs, cfg) && k < |evs| && (evs[k] == StartFailed(e) || evs[k] == Cancelled(e))
    ensures At(ss[k + 1], e, Done)
    ensures var id := ss[k + 1].entries[e].core.id;
            id in ss[k + 1].rows && ss[k + 1].rows[id].life == if evs[k].StartFailed? then Unstable else Terminated
  {
    Reachable(ss, evs, cfg, k);
  }

  // No goroutine is stuck: whatever the others do, each can go on unless it has returned,
  // and can be cancelled while it waits to restart.
  lemma CanGoOn(s: State, e: nat, pid: nat)
    requires e in s.entries && pid > 0 && pid !in s.procs
    ensures At(s, e, Launching) ==> Enabled(s, Started(e, pid)) && Enabled(s, StartFailed(e))
    ensures At(s, e, Waiting) ==> Enabled(s, Exited(e))
    ensures At(s, e, Pausing) ==> (forall o :: Enabled(s, Decide(e, o))) && Enabled(s, Cancelled(e))
    ensures At(s, e, Exiting) ==> forall o :: Enabled(s, Decide(e, o))
    ensures At(s, e, BackingOff) ==> Enabled(s, Restart(e)) && Enabled(s, Cancelled(e))
    ensures IsArmed(s, e) ==> Enabled(s, TimerUp(e))
    ensures forall n :: Call(e, n) in s.calls ==> Enabled(s, Expire(e, n))
  {
  }

  // While Lab is up it accepts every message and may crash; after that it can boot.
  lemma Accepts(s: State, id: string, conn: nat, now: int, order: seq<string>)
    requires forall i, j :: 0 <= i < j < |order| ==> order[i] != order[j]
    requires forall x :: x in order <==> x in s.rows && (s.rows[x].life == Active || s.rows[x].life == Training)
    ensures s.up ==> && Enabled(s, Spawn(id)) && Enabled(s, Register(id, conn)) && Enabled(s, Heartbeat(id, now))
                     && Enabled(s, Drop(id)) && Enabled(s, CheckHeartbeats(now)) && Enabled(s, Terminate(id))
                     && Enabled(s, Crash)
    ensures !s.up ==> Enabled(s, Boot(order))
  {
    assert (set x | x in order) == Recoverable(s.rows);
  }

  // --------------------------------------------------------------------------
  // Messages
  // --------------------------------------------------------------------------

  // A drop opens a window on any link that can be lost, and leaves an open one as it is.
  lemma DropOutcome(ss: seq<State>, evs: seq<Event>, cfg: Config, k: nat, id: string)
    requires IsRun(ss, evs, cfg) && k < |evs| && evs[k] == Drop(id) && id in ss[k].table
    ensures ss[k].table[id] in ss[k].entries && ss[k].table[id] in ss[k + 1].entries
    ensures var c, c' := ss[k].entries[ss[k].table[id]].core, ss[k + 1].entries[ss[k].table[id]].core;
            && c'.conn == None && c'.track.link == Recovering
            && (c.track.link == Recovering ==> c'.track == c.track)
            && (c.track.link != Recovering ==>
                  && c'.track.timer == Armed && OpensAt(ss[k], evs[k], ss[k].table[id])
                  && ss[k].table[id] in ss[k + 1].window && ss[k + 1].window[ss[k].table[id]] == ss[k].nextWindow)
  {
    Reachable(ss, evs, cfg, k);
  }

  // A check marks exactly the ACTIVE entries of the table whose last heartbeat is older
  // than the timeout ...
  lemma CheckOutcome(s: State, now: int, cfg: Config)
    requires Inv(s, cfg)
    ensures DoCheck(s, now, cfg).entries.Keys == s.entries.Keys
    ensures forall e :: e in s.entries ==>
              var c := s.entries[e].core;
              var late := Is(s, c.id, e) && c.life == Active && c.lastBeat.Some?
                          && now - c.lastBeat.value > cfg.heartbeatTimeout;
              DoCheck(s, now, cfg).entries[e]
              == if late then s.entries[e].(core := c.(life := Unstable)) else s.entries[e]
  {
    forall e | e in s.entries && e in s.table.Values
      ensures Is(s, s.entries[e].core.id, e)
    {
      var id :| id in s.table && s.table[id] == e;
    }
  }

  // ... and their rows.
  lemma CheckedRow(s: State, now: int, cfg: Config, id: string)
    requires Inv(s, cfg) && id in s.rows
    ensures id in DoCheck(s, now, cfg).rows
    ensures DoCheck(s, now, cfg).rows[id]
            == if && Known(s, id) && s.entries[s.table[id]].core.life == Active
                  && s.entries[s.table[id]].core.lastBeat.Some?
                  && now - s.entries[s.table[id]].core.lastBeat.value > cfg.heartbeatTimeout
               then s.rows[id].(life := Unstable) else s.rows[id]
  {
  }

  // A message for an id nobody has changes nothing.
  lemma Unknown(s: State, id: string, conn: nat, at: int, cfg: Config)
    requires TableOk(s) && s.up && id !in s.table
    ensures Step(s, Register(id, conn), cfg) == s && Step(s, Heartbeat(id, at), cfg) == s
    ensures Step(s, Drop(id), cfg) == s && Step(s, Terminate(id), cfg) == s
  {
  }

  // A termination is on record at once, whether or not a process was signalled.
  lemma TerminationRecorded(ss: seq<State>, evs: seq<Event>, cfg: Config, k: nat, id: string)
    requires IsRun(ss, evs, cfg) && k < |evs| && evs[k] == Terminate(id) && id in ss[k].table
    ensures id in ss[k + 1].rows && ss[k + 1].rows[id].life == Terminated
  {
    Reachable(ss, evs, cfg, k);
  }

  // --------------------------------------------------------------------------
  // Crash and boot
  // --------------------------------------------------------------------------

  // Steps that write ACTIVE or TRAINING: a start, a registration, a first heartbeat.
  predicate Revives(s: State, ev: Event, id: string) {
    match ev
    case Started(e, _) => e in s.entries && s.entries[e].core.id == id
    case Register(x, _) => x == id && Known(s, id)
    case Heartbeat(x, _) => x == id && Known(s, id) && s.entries[s.table[id]].core.life == Training
    case _ => false
  }

  lemma RevivesRow(ss: seq<State>, evs: seq<Event>, cfg: Config, k: nat, id: string)
    requires IsRun(ss, evs, cfg) && k < |evs| && Revives(ss[k], evs[k], id)
    ensures id in ss[k + 1].rows && (ss[k + 1].rows[id].life == Active || ss[k + 1].rows[id].life == Training)
  {
    Reachable(ss, evs, cfg, k);
  }

  // Nothing changes the rows while Lab is down.
  lemma {:induction false} RowsRest(ss: seq<State>, evs: seq<Event>, cfg: Config, c: nat, b: nat)
    requires IsRun(ss, evs, cfg) && c < b <= |evs| && evs[c] == Crash
    requires forall m :: c < m < b ==> !evs[m].Boot?
    ensures !ss[b].up && ss[b].rows == ss[c].rows
    decreases b
  {
    if c < b - 1 {
      RowsRest(ss, evs, cfg, c, b - 1);
      Reachable(ss, evs, cfg, b - 1);
      DownStep(ss[b - 1], evs[b - 1], cfg);
    }
  }

  lemma DownStep(s: State, ev: Event, cfg: Config)
    requires Inv(s, cfg) && Enabled(s, ev) && !s.up && !ev.Boot?
    ensures !Step(s, ev, cfg).up && Step(s, ev, cfg).rows == s.rows
  {
    assert s.entries == map[];
  }

  // An angel whose last life on record before a crash came from a start, a registration
  // or a first heartbeat is back after the next boot, as a new entry about to launch.
  lemma CrashRecovers(ss: seq<State>, evs: seq<Event>, cfg: Config, j: nat, c: nat, b: nat, id: string)
    requires IsRun(ss, evs, cfg) && j < c < b < |evs| && evs[c] == Crash && evs[b].Boot?
    requires Revives(ss[j], evs[j], id)
    requires forall m :: j < m < c && id in ss[m].rows ==>
               id in ss[m + 1].rows && ss[m + 1].rows[id].life == ss[m].rows[id].life
    requires forall m :: c < m < b ==> !evs[m].Boot?
    ensures id in ss[b + 1].table && Fresh(ss[b + 1], id)
    ensures id in ss[b + 1].rows && ss[b + 1].rows[id].life == Created
  {
    RevivesRow(ss, evs, cfg, j, id);
    LifeStays(ss, id, j + 1, c);
    RowsRest(ss, evs, cfg, c, b);
    BootRecovers(ss, evs, cfg, b, evs[b].order);
  }

  lemma {:induction false} LifeStays(ss: seq<State>, id: string, i: nat, c: nat)
    requires i <= c < |ss| && id in ss[i].rows
    requires forall m :: i <= m < c && id in ss[m].rows ==>
               id in ss[m + 1].rows && ss[m + 1].rows[id].life == ss[m].rows[id].life
    ensures id in ss[c].rows && ss[c].rows[id].life == ss[i].rows[id].life
    decreases c
  {
    if i < c {
      LifeStays(ss, id, i, c - 1);
      assert id in ss[c - 1 + 1].rows;
    }
  }
}
