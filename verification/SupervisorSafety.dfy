// What every reachable state of the supervisor keeps.
module SupervisorSafety {
  import opened Registry
  import opened Connection
  import opened SupervisorModel

  // The record of one angel between steps.
  predicate CoreOk(c: Core) {
    && (c.conn.Some? ==> c.track.link == Registered || c.track.link == LinkActive)
    && (c.track.link == LinkActive ==> c.life == Active || c.life == Unstable)
    && Settled(c.track)
    && c.life != Contained && c.life != Terminated
  }

  // How many processes one goroutine may start if no restart count is lost.
  function Limit(c0: nat, maxRestarts: int): nat {
    if maxRestarts - c0 > 1 then maxRestarts - c0 else 1
  }

  // The goroutine's history against the row's current restart count.
  predicate JobOk(j: Job, count: nat, maxRestarts: int) {
    && j.c0 + j.counted <= count
    && j.starts <= Limit(j.c0, maxRestarts) + j.failed
    && match j.phase
       case Launching => j.starts == j.counted + j.failed && (j.counted > 0 ==> j.c0 + j.counted < maxRestarts)
       case BackingOff => j.starts == j.counted + j.failed && (j.counted > 0 ==> j.c0 + j.counted < maxRestarts)
       case Waiting => j.starts == j.counted + j.failed + 1 && (j.counted > 0 ==> j.c0 + j.counted < maxRestarts)
       case Pausing => j.starts == j.counted + j.failed + 1 && (j.counted > 0 ==> j.c0 + j.counted < maxRestarts)
       case Exiting => j.starts == j.counted + j.failed + 1 && (j.counted > 0 ==> j.c0 + j.counted < maxRestarts)
       case Done => true
  }

  ghost predicate EntriesOk(s: State, cfg: Config) {
    forall e :: e in s.entries ==>
      && e < s.next
      && CoreOk(s.entries[e].core)
      && s.entries[e].core.id in s.rows
      && JobOk(s.entries[e].job, s.rows[s.entries[e].core.id].restarts, cfg.maxRestarts)
  }

  ghost predicate TableOk(s: State) {
    forall id :: id in s.table ==> s.table[id] in s.entries && s.entries[s.table[id]].core.id == id
  }

  // A process is waited for by exactly the entry that records its pid and is waiting.
  ghost predicate ChildrenOk(s: State) {
    && (forall pid :: pid in s.children ==>
          && pid in s.procs && At(s, s.children[pid], Waiting) && s.entries[s.children[pid]].core.pid == pid)
    && (forall e :: At(s, e, Waiting) ==>
          s.entries[e].core.pid in s.children && s.children[s.entries[e].core.pid] == e)
  }

  ghost predicate Inv(s: State, cfg: Config) {
    && EntriesOk(s, cfg) && TableOk(s) && ChildrenOk(s)
    && (!s.up ==> s.entries == map[] && s.table == map[] && s.children == map[])
  }

  // The same rows with the same restart counts.
  ghost predicate SameCounts(t: Table, t': Table) {
    t.Keys == t'.Keys && forall id :: id in t ==> t'[id].restarts == t[id].restarts
  }

  // Rewriting one entry's record keeps the invariant if the record stays sound and the
  // process it owns stays the same.
  lemma CoreChange(s: State, e: nat, c: Core, rows: Table, cfg: Config)
    requires Inv(s, cfg) && s.up && e in s.entries && SameCounts(s.rows, rows)
    requires CoreOk(c) && c.id == s.entries[e].core.id && c.pid == s.entries[e].core.pid
    ensures Inv(SetCore(s.(rows := rows), e, c), cfg)
  {
    var s' := SetCore(s.(rows := rows), e, c);
    assert forall x, p :: At(s', x, p) <==> At(s, x, p);
  }

  lemma SpawnEntries(s: State, id: string, cfg: Config)
    requires EntriesOk(s, cfg) && TableOk(s)
    ensures EntriesOk(DoSpawn(s, id), cfg) && TableOk(DoSpawn(s, id))
  {
    var s' := DoSpawn(s, id);
    assert s.next !in s.entries;
    assert CountsKept(s.rows, s'.rows) && id in s'.rows;
    assert CoreOk(NewCore(id));
  }

  lemma SpawnChildren(s: State, id: string)
    requires ChildrenOk(s) && s.next !in s.entries
    ensures ChildrenOk(DoSpawn(s, id))
  {
    assert forall x :: At(DoSpawn(s, id), x, Waiting) <==> At(s, x, Waiting);
  }

  lemma SpawnKeeps(s: State, id: string, cfg: Config)
    requires Inv(s, cfg) && s.up
    ensures Inv(DoSpawn(s, id), cfg) && DoSpawn(s, id).up
  {
    SpawnEntries(s, id, cfg);
    SpawnChildren(s, id);
  }

  lemma {:induction false} SpawnAllKeeps(s: State, order: seq<string>, cfg: Config)
    requires Inv(s, cfg) && s.up
    ensures Inv(SpawnAll(s, order), cfg) && SpawnAll(s, order).up
  {
    if order != [] {
      SpawnAllKeeps(s, order[..|order| - 1], cfg);
      SpawnKeeps(SpawnAll(s, order[..|order| - 1]), order[|order| - 1], cfg);
    }
  }

  // Replacing one entry by a sound one, with no restart count lowered.
  lemma EntryUpdate(s: State, s': State, e: nat, entry: Entry, cfg: Config)
    requires EntriesOk(s, cfg) && TableOk(s) && e in s.entries
    requires s'.entries == s.entries[e := entry] && s'.next == s.next && s'.table == s.table
    requires CountsKept(s.rows, s'.rows)
    requires entry.core.id == s.entries[e].core.id && CoreOk(entry.core)
    requires JobOk(entry.job, s'.rows[entry.core.id].restarts, cfg.maxRestarts)
    ensures EntriesOk(s', cfg) && TableOk(s')
  {
  }

  lemma StartedKeeps(s: State, e: nat, pid: nat, cfg: Config)
    requires Inv(s, cfg) && At(s, e, Launching) && pid > 0 && pid !in s.procs
    ensures Inv(DoStarted(s, e, pid), cfg)
  {
    var s' := DoStarted(s, e, pid);
    assert pid !in s.children;
    EntryUpdate(s, s', e, s'.entries[e], cfg);
    StartedChildren(s, e, pid, s');
  }

  lemma StartedChildren(s: State, e: nat, pid: nat, s': State)
    requires ChildrenOk(s) && At(s, e, Launching) && pid !in s.children && e in s'.entries
    requires s'.entries == s.entries[e := s'.entries[e]] && At(s', e, Waiting) && s'.entries[e].core.pid == pid
    requires s'.children == s.children[pid := e] && s'.procs == s.procs[pid := true]
    ensures ChildrenOk(s')
  {
    assert forall x :: At(s', x, Waiting) <==> x == e || At(s, x, Waiting);
  }

  lemma ExitedKeeps(s: State, e: nat, cfg: Config)
    requires Inv(s, cfg) && At(s, e, Waiting)
    ensures Inv(DoExited(s, e), cfg)
  {
    var s' := DoExited(s, e);
    ExitedEntry(s, e, cfg);
    EntryUpdate(s, s', e, s'.entries[e], cfg);
    ExitedChildren(s, e, s');
  }

  lemma ExitedEntry(s: State, e: nat, cfg: Config)
    requires EntriesOk(s, cfg) && At(s, e, Waiting)
    ensures var entry := DoExited(s, e).entries[e];
            && entry.core.id == s.entries[e].core.id && CoreOk(entry.core)
            && entry.job.phase != Waiting
            && JobOk(entry.job, s.rows[s.entries[e].core.id].restarts, cfg.maxRestarts)
  {
  }

  lemma ExitedChildren(s: State, e: nat, s': State)
    requires ChildrenOk(s) && At(s, e, Waiting) && e in s'.entries
    requires s'.entries == s.entries[e := s'.entries[e]] && s'.entries[e].job.phase != Waiting
    requires s'.children == s.children - {s.entries[e].core.pid} && s'.procs == s.procs - {s.entries[e].core.pid}
    ensures ChildrenOk(s')
  {
    assert forall x :: At(s', x, Waiting) <==> x != e && At(s, x, Waiting);
  }

  // A goroutine moving between phases outside cmd.Wait leaves the children alone.
  lemma SameChildren(s: State, s': State, e: nat)
    requires ChildrenOk(s) && e in s.entries && e in s'.entries
    requires s'.entries == s.entries[e := s'.entries[e]] && s'.children == s.children && s'.procs == s.procs
    requires s.entries[e].job.phase != Waiting && s'.entries[e].job.phase != Waiting
    ensures ChildrenOk(s')
  {
    assert forall x :: At(s', x, Waiting) <==> At(s, x, Waiting);
  }

  // The count a goroutine acts on covers all its own successful increments.
  lemma DecideJob(j: Job, before: nat, outcome: Outcome, maxRestarts: int)
    requires JobOk(j, before, maxRestarts) && (j.phase == Exiting || j.phase == Pausing)
    ensures var j' := if outcome == Counted then j.(counted := j.counted + 1) else j.(failed := j.failed + 1);
            var after := if outcome == UpdateFailed then before else before + 1;
            var count := if outcome == Counted then before + 1 else 0;
            JobOk(j'.(phase := if count >= maxRestarts then Done else BackingOff), after, maxRestarts)
  {
  }

  lemma DecideKeeps(s: State, e: nat, outcome: Outcome, cfg: Config)
    requires Inv(s, cfg) && (At(s, e, Exiting) || At(s, e, Pausing))
    ensures Inv(DoDecide(s, e, outcome, cfg), cfg)
  {
    var s' := DoDecide(s, e, outcome, cfg);
    DecideJob(s.entries[e].job, s.rows[s.entries[e].core.id].restarts, outcome, cfg.maxRestarts);
    EntryUpdate(s, s', e, s'.entries[e], cfg);
    SameChildren(s, s', e);
  }

  lemma RestartKeeps(s: State, e: nat, cfg: Config)
    requires Inv(s, cfg) && At(s, e, BackingOff)
    ensures Inv(DoRestart(s, e), cfg)
  {
    var s' := DoRestart(s, e);
    EntryUpdate(s, s', e, s'.entries[e], cfg);
    SameChildren(s, s', e);
  }

  lemma FinishKeeps(s: State, e: nat, life: Life, cfg: Config)
    requires Inv(s, cfg) && e in s.entries && s.entries[e].job.phase != Waiting
    ensures Inv(DoFinish(s, e, life), cfg)
  {
    var s' := DoFinish(s, e, life);
    EntryUpdate(s, s', e, s'.entries[e], cfg);
    SameChildren(s, s', e);
  }

  lemma RegisterKeeps(s: State, id: string, conn: nat, cfg: Config)
    requires Inv(s, cfg)
    ensures Inv(DoRegister(s, id, conn), cfg)
  {
    if id in s.table {
      var c := s.entries[s.table[id]].core;
      CoreChange(s, s.table[id], OnRegister(c, conn), UpdateState(s.rows, id, Training), cfg);
    }
  }

  lemma HeartbeatKeeps(s: State, id: string, at: int, cfg: Config)
    requires Inv(s, cfg)
    ensures Inv(DoHeartbeat(s, id, at), cfg)
  {
    if id in s.table {
      var c := s.entries[s.table[id]].core;
      var rows := if c.life == Training then UpdateState(s.rows, id, Active) else s.rows;
      CoreChange(s, s.table[id], OnHeartbeat(c, at), rows, cfg);
      assert s.(rows := s.rows) == s;
    }
  }

  // Windows and timer functions are no concern of the invariant.
  lemma OtherWindows(s: State, s': State, cfg: Config)
    requires Inv(s, cfg)
    requires s' == s.(nextWindow := s'.nextWindow, window := s'.window, calls := s'.calls)
    ensures Inv(s', cfg)
  {
    assert forall x, p :: At(s', x, p) <==> At(s, x, p);
  }

  lemma DropKeeps(s: State, id: string, cfg: Config)
    requires Inv(s, cfg)
    ensures Inv(DoDrop(s, id), cfg)
  {
    if id in s.table {
      var c := s.entries[s.table[id]].core;
      DroppedOk(c);
      SetCoreKeeps(s, s.table[id], OnDrop(c), cfg);
      OtherWindows(SetCore(s, s.table[id], OnDrop(c)), DoDrop(s, id), cfg);
    }
  }

  lemma DroppedOk(c: Core)
    requires CoreOk(c)
    ensures CoreOk(OnDrop(c))
  {
  }

  lemma SetCoreKeeps(s: State, e: nat, c: Core, cfg: Config)
    requires Inv(s, cfg) && s.up && e in s.entries
    requires CoreOk(c) && c.id == s.entries[e].core.id && c.pid == s.entries[e].core.pid
    ensures Inv(SetCore(s, e, c), cfg)
  {
    CoreChange(s, e, c, s.rows, cfg);
    assert s.(rows := s.rows) == s;
  }

  lemma TimerUpKeeps(s: State, e: nat, cfg: Config)
    requires Inv(s, cfg) && e in s.entries && s.entries[e].core.track.timer == Armed
    ensures Inv(DoTimerUp(s, e), cfg)
  {
    var c := s.entries[e].core.(track := Fire(s.entries[e].core.track));
    SetCoreKeeps(s, e, c, cfg);
    OtherWindows(SetCore(s, e, c), DoTimerUp(s, e), cfg);
  }

  lemma ExpireKeeps(s: State, e: nat, window: nat, cfg: Config)
    requires Inv(s, cfg)
    ensures Inv(DoExpire(s, e, window), cfg)
  {
    OtherWindows(s, DoExpire(s, e, window), cfg);
  }

  lemma CheckKeeps(s: State, now: int, cfg: Config)
    requires Inv(s, cfg)
    ensures Inv(DoCheck(s, now, cfg), cfg)
  {
    CheckEntries(s, now, cfg);
    CheckChildren(s, now, cfg);
  }

  lemma CheckEntries(s: State, now: int, cfg: Config)
    requires EntriesOk(s, cfg) && TableOk(s)
    ensures EntriesOk(DoCheck(s, now, cfg), cfg) && TableOk(DoCheck(s, now, cfg))
  {
    var s' := DoCheck(s, now, cfg);
    CheckRows(s, now, cfg);
    forall e | e in s'.entries
      ensures s'.entries[e].job == s.entries[e].job && s'.entries[e].core.id == s.entries[e].core.id
      ensures CoreOk(s'.entries[e].core)
    {
      assert CoreOk(s.entries[e].core);
    }
  }

  lemma CheckRows(s: State, now: int, cfg: Config)
    ensures SameCounts(s.rows, DoCheck(s, now, cfg).rows)
  {
  }

  lemma CheckChildren(s: State, now: int, cfg: Config)
    requires ChildrenOk(s)
    ensures ChildrenOk(DoCheck(s, now, cfg))
  {
    var s' := DoCheck(s, now, cfg);
    assert forall x, p :: At(s', x, p) <==> At(s, x, p);
    assert forall e :: e in s.entries ==> s'.entries[e].core.pid == s.entries[e].core.pid;
  }

  lemma TerminateKeeps(s: State, id: string, cfg: Config)
    requires Inv(s, cfg)
    ensures Inv(DoTerminate(s, id), cfg)
  {
    var s' := DoTerminate(s, id);
    assert SameCounts(s.rows, s'.rows);
    assert forall x, p :: At(s', x, p) <==> At(s, x, p);
  }

  lemma EnvironmentKeeps(s: State, procs: map<nat, bool>, cfg: Config)
    requires Inv(s, cfg) && s.children.Keys <= procs.Keys
    ensures Inv(s.(procs := procs), cfg)
  {
    assert forall x, p :: At(s.(procs := procs), x, p) <==> At(s, x, p);
  }

  lemma GoroutineKeeps(s: State, ev: Event, cfg: Config)
    requires Inv(s, cfg) && Enabled(s, ev)
    requires OfEntry(ev)
    ensures Inv(Step(s, ev, cfg), cfg)
  {
    match ev
    case StartFailed(e) => FinishKeeps(s, e, Unstable, cfg);
    case Started(e, pid) => StartedKeeps(s, e, pid, cfg);
    case Exited(e) => ExitedKeeps(s, e, cfg);
    case Decide(e, outcome) => DecideKeeps(s, e, outcome, cfg);
    case Cancelled(e) => FinishKeeps(s, e, Terminated, cfg);
    case Restart(e) => RestartKeeps(s, e, cfg);
    case TimerUp(e) => TimerUpKeeps(s, e, cfg);
    case Expire(e, window) => ExpireKeeps(s, e, window, cfg);
  }

  // Every step keeps the invariant.
  lemma StepKeeps(s: State, ev: Event, cfg: Config)
    requires Inv(s, cfg) && Enabled(s, ev)
    ensures Inv(Step(s, ev, cfg), cfg)
  {
    match ev
    case Spawn(id) => SpawnKeeps(s, id, cfg);
    case Register(id, conn) => RegisterKeeps(s, id, conn, cfg);
    case Heartbeat(id, at) => HeartbeatKeeps(s, id, at, cfg);
    case Drop(id) => DropKeeps(s, id, cfg);
    case CheckHeartbeats(now) => CheckKeeps(s, now, cfg);
    case Terminate(id) => TerminateKeeps(s, id, cfg);
    case Environment(procs) => EnvironmentKeeps(s, procs, cfg);
    case Crash =>
    case Boot(order) => SpawnAllKeeps(s.(up := true, rows := MarkStale(s.rows)), order, cfg);
    case _ => GoroutineKeeps(s, ev, cfg);
  }

  // Every state of every run satisfies the invariant.
  lemma {:induction false} Reachable(ss: seq<State>, evs: seq<Event>, cfg: Config, k: nat)
    requires IsRun(ss, evs, cfg) && k <= |evs|
    ensures Inv(ss[k], cfg)
  {
    if k > 0 {
      Reachable(ss, evs, cfg, k - 1);
      StepKeeps(ss[k - 1], evs[k - 1], cfg);
    }
  }

  // --------------------------------------------------------------------------
  // How a link may change
  // --------------------------------------------------------------------------

  predicate Is(s: State, id: string, e: nat) { id in s.table && s.table[id] == e }

  // The tracker of e after a step, by cause.
  function TrackAfter(s: State, ev: Event, e: nat): Tracker
    requires e in s.entries && Enabled(s, ev)
  {
    var c := s.entries[e].core;
    match ev
    case Register(id, _) => if Is(s, id, e) then MarkRecovered(c.track) else c.track
    case Heartbeat(id, at) => if Is(s, id, e) then OnHeartbeat(c, at).track else c.track
    case Drop(id) => if Is(s, id, e) then MarkLost(c.track) else c.track
    case Restart(x) => if x == e then ResetConn(c.track) else c.track
    case TimerUp(x) => if x == e then Fire(c.track) else c.track
    case _ => c.track
  }

  lemma DropEntries(s: State, id: string)
    ensures DoDrop(s, id).entries
            == if Known(s, id)
               then s.entries[s.table[id] := s.entries[s.table[id]].(core := OnDrop(s.entries[s.table[id]].core))]
               else s.entries
  {
  }

  lemma DropMoves(s: State, id: string, e: nat)
    requires TableOk(s) && e in s.entries
    ensures e in DoDrop(s, id).entries
    ensures DoDrop(s, id).entries[e].core.track
            == if Is(s, id, e) then MarkLost(s.entries[e].core.track) else s.entries[e].core.track
  {
    DropEntries(s, id);
  }

  lemma AddressedMoves(s: State, ev: Event, e: nat, cfg: Config)
    requires TableOk(s) && Enabled(s, ev) && e in s.entries && OfMessage(ev)
    ensures e in Step(s, ev, cfg).entries && Step(s, ev, cfg).entries[e].core.track == TrackAfter(s, ev, e)
  {
    if ev.Drop? {
      DropMoves(s, ev.id, e);
    }
  }

  lemma GoroutineMoves(s: State, ev: Event, e: nat, cfg: Config)
    requires Enabled(s, ev) && e in s.entries
    requires OfEntry(ev)
    ensures e in Step(s, ev, cfg).entries && Step(s, ev, cfg).entries[e].core.track == TrackAfter(s, ev, e)
  {
  }

  lemma GlobalMoves(s: State, ev: Event, e: nat, cfg: Config)
    requires EntriesOk(s, cfg) && Enabled(s, ev) && e in s.entries
    requires ev.Spawn? || ev.CheckHeartbeats? || ev.Terminate? || ev.Environment?
    ensures e in Step(s, ev, cfg).entries && Step(s, ev, cfg).entries[e].core.track == TrackAfter(s, ev, e)
  {
    assert e != s.next;
  }

  lemma TrackMoves(s: State, ev: Event, e: nat, cfg: Config)
    requires Inv(s, cfg) && Enabled(s, ev) && e in s.entries
    ensures !ev.Crash? && !ev.Boot? ==> e in Step(s, ev, cfg).entries
    ensures e in Step(s, ev, cfg).entries ==> Step(s, ev, cfg).entries[e].core.track == TrackAfter(s, ev, e)
  {
    if OfMessage(ev) {
      AddressedMoves(s, ev, e, cfg);
    } else if ev.Spawn? || ev.CheckHeartbeats? || ev.Terminate? || ev.Environment? {
      GlobalMoves(s, ev, e, cfg);
    } else if !ev.Boot? && !ev.Crash? {
      GoroutineMoves(s, ev, e, cfg);
    }
  }

  // Links move only by registration, restart, first heartbeat and drop ...
  predicate Caused(s: State, ev: Event, e: nat, l: Link, l': Link) {
    || l' == l
    || (ev.Register? && Is(s, ev.id, e) && l' == Registered)
    || (ev == Restart(e) && l' == Connecting)
    || (ev.Heartbeat? && Is(s, ev.id, e) && l == Registered && l' == LinkActive)
    || (ev.Drop? && Is(s, ev.id, e) && l != Recovering && l' == Recovering)
  }

  // ... and leave the transition table when a live link is registered over, or the
  // angel restarts with its link still up.
  predicate OffTable(s: State, ev: Event, e: nat, l: Link) {
    || (ev.Register? && Is(s, ev.id, e) && l == LinkActive)
    || (ev == Restart(e) && (l == Registered || l == LinkActive))
  }

  lemma LinkAfter(s: State, ev: Event, e: nat)
    requires e in s.entries && Enabled(s, ev) && CoreOk(s.entries[e].core)
    ensures var l, l' := s.entries[e].core.track.link, TrackAfter(s, ev, e).link;
            Caused(s, ev, e, l, l') && (l == l' || ValidTransition(l, l') <==> !OffTable(s, ev, e, l))
  {
  }

  lemma LinkMoves(s: State, ev: Event, e: nat, cfg: Config)
    requires Inv(s, cfg) && Enabled(s, ev) && e in s.entries && e in Step(s, ev, cfg).entries
    ensures var l, l' := s.entries[e].core.track.link, Step(s, ev, cfg).entries[e].core.track.link;
            Caused(s, ev, e, l, l') && (l == l' || ValidTransition(l, l') <==> !OffTable(s, ev, e, l))
  {
    TrackMoves(s, ev, e, cfg);
    LinkAfter(s, ev, e);
  }
}
