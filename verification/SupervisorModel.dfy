// internal/lab/supervisor.go as a step system: every Supervisor method, every stretch
// of a runAngel goroutine between two waits, each firing of a timer and each run of its
// function is one step.
module SupervisorModel {
  import opened Option
  import opened Registry
  import opened Connection

  // The in-memory record of one angel: what AngelEntry holds.
  datatype Core = Core(id: string, life: Life, restarts: nat, pid: nat, conn: Option<nat>,
                       lastBeat: Option<int>, track: Tracker)

  // Where the entry's runAngel goroutine is.
  datatype Phase = Launching     // about to call startProcess
                 | Waiting       // in cmd.Wait
                 | Pausing       // process gone while recovering: in the 500 ms wait
                 | Exiting       // process gone otherwise, restart policy not applied yet
                 | BackingOff    // waiting out RestartBackoff
                 | Done          // returned

  // The goroutine, with its history: the row's restart count when it was spawned, how
  // often it started a process, and how its restart counting went.
  datatype Job = Job(phase: Phase, c0: nat, starts: nat, counted: nat, failed: nat)

  datatype Entry = Entry(core: Core, job: Job)

  // The timer's function of one recovery window, started and not run yet.
  datatype Call = Call(e: nat, window: nat)

  // Entries are numbered over all Lab lifetimes; a replaced entry stays until the next
  // crash because its goroutine lives on.  procs maps each process id in use to whether
  // its command line contains "angel"; children maps those that some live goroutine is
  // waiting for to its entry.  Recovery windows are numbered too: nextWindow is the next
  // number and window gives the latest window of an entry.
  datatype State = State(up: bool, next: nat, entries: map<nat, Entry>, table: map<string, nat>,
                         rows: Table, procs: map<nat, bool>, children: map<nat, nat>,
                         nextWindow: nat, window: map<nat, nat>, calls: set<Call>)

  datatype Config = Config(maxRestarts: int, heartbeatTimeout: int)

  datatype Event =
    | Spawn(id: string)
    | StartFailed(e: nat)
    | Started(e: nat, pid: nat)
    | Exited(e: nat)
    | Decide(e: nat, outcome: Outcome)
    | Cancelled(e: nat)
    | Restart(e: nat)
    | Register(id: string, conn: nat)
    | Heartbeat(id: string, at: int)
    | Drop(id: string)
    | TimerUp(e: nat)
    | Expire(e: nat, window: nat)
    | CheckHeartbeats(now: int)
    | Terminate(id: string)
    | Environment(procs: map<nat, bool>)
    | Crash
    | Boot(order: seq<string>)

  // What an event comes from: the goroutine or the timer of an entry, or a message.
  predicate OfEntry(ev: Event) {
    || ev.StartFailed? || ev.Started? || ev.Exited? || ev.Decide? || ev.Cancelled? || ev.Restart?
    || ev.TimerUp? || ev.Expire?
  }

  predicate OfMessage(ev: Event) { ev.Register? || ev.Heartbeat? || ev.Drop? }

  // --------------------------------------------------------------------------
  // One entry at a time
  // --------------------------------------------------------------------------

  function NewCore(id: string): Core {
    Core(id, Created, 0, 0, None, None, Transition(UNUSED, Connecting))
  }

  function OnExit(c: Core): Core { c.(life := Unstable, conn := None) }

  function OnRestart(c: Core): Core { c.(conn := None, lastBeat := None, track := ResetConn(c.track)) }

  function OnRegister(c: Core, conn: nat): Core {
    c.(conn := Some(conn), life := Training, track := Transition(MarkRecovered(c.track), Registered))
  }

  function OnHeartbeat(c: Core, at: int): Core {
    c.(life := Active, lastBeat := Some(at),
       track := if c.life == Training then Transition(c.track, LinkActive) else c.track)
  }

  function OnDrop(c: Core): Core { c.(conn := None, track := MarkLost(c.track)) }

  predicate Late(c: Core, now: int, timeout: int) {
    c.life == Active && c.lastBeat.Some? && now - c.lastBeat.value > timeout
  }

  // --------------------------------------------------------------------------
  // Steps
  // --------------------------------------------------------------------------

  predicate Verified(s: State, pid: nat) { pid > 0 && pid in s.procs && s.procs[pid] }

  predicate At(s: State, e: nat, phase: Phase) { e in s.entries && s.entries[e].job.phase == phase }

  // The environment may do anything to processes except reap those waited for.
  predicate Enabled(s: State, ev: Event) {
    match ev
    case Spawn(_) => s.up
    case StartFailed(e) => At(s, e, Launching)
    case Started(e, pid) => At(s, e, Launching) && pid > 0 && pid !in s.procs
    case Exited(e) => At(s, e, Waiting)
    case Decide(e, _) => At(s, e, Exiting) || At(s, e, Pausing)
    case Cancelled(e) => At(s, e, BackingOff) || At(s, e, Pausing)
    case Restart(e) => At(s, e, BackingOff)
    case Register(_, _) => s.up
    case Heartbeat(_, _) => s.up
    case Drop(_) => s.up
    case TimerUp(e) => e in s.entries && s.entries[e].core.track.timer == Armed
    case Expire(e, window) => e in s.entries && Call(e, window) in s.calls
    case CheckHeartbeats(_) => s.up
    case Terminate(_) => s.up
    case Environment(procs) => s.children.Keys <= procs.Keys
    case Crash => s.up
    case Boot(order) =>
      && !s.up
      && (set id | id in order) == Recoverable(s.rows)
      && (forall i, j :: 0 <= i < j < |order| ==> order[i] != order[j])
  }

  function SetCore(s: State, e: nat, c: Core): State
    requires e in s.entries
  {
    s.(entries := s.entries[e := s.entries[e].(core := c)])
  }

  function SetJob(s: State, e: nat, j: Job): State
    requires e in s.entries
  {
    s.(entries := s.entries[e := s.entries[e].(job := j)])
  }

  // SpawnAngel; an existing table entry is replaced.
  function DoSpawn(s: State, id: string): State {
    var rows := UpdateState(InsertAngel(s.rows, id), id, Created);
    var job := Job(Launching, rows[id].restarts, 0, 0, 0);
    s.(next := s.next + 1, rows := rows, table := s.table[id := s.next],
       entries := s.entries[s.next := Entry(NewCore(id), job)])
  }

  function SpawnAll(s: State, order: seq<string>): State {
    if order == [] then s else DoSpawn(SpawnAll(s, order[..|order| - 1]), order[|order| - 1])
  }

  // The restart policy once IncrementRestarts has returned.
  function DoDecide(s: State, e: nat, outcome: Outcome, cfg: Config): State
    requires e in s.entries
  {
    var Entry(c, j) := s.entries[e];
    var (rows, count) := IncrementRestarts(s.rows, c.id, outcome);
    var j' := if outcome == Counted then j.(counted := j.counted + 1) else j.(failed := j.failed + 1);
    var done := count >= cfg.maxRestarts;
    s.(rows := if done then UpdateState(rows, c.id, Contained) else rows,
       entries := s.entries[e := Entry(c.(restarts := count), j'.(phase := if done then Done else BackingOff))])
  }

  function DoStarted(s: State, e: nat, pid: nat): State
    requires e in s.entries
  {
    var Entry(c, j) := s.entries[e];
    s.(entries := s.entries[e := Entry(c.(pid := pid), j.(phase := Waiting, starts := j.starts + 1))],
       rows := UpdatePID(UpdateState(s.rows, c.id, Training), c.id, pid),
       procs := s.procs[pid := true], children := s.children[pid := e])
  }

  function DoExited(s: State, e: nat): State
    requires e in s.entries
  {
    var Entry(c, j) := s.entries[e];
    var phase := if c.track.link == Recovering then Pausing else Exiting;
    s.(entries := s.entries[e := Entry(OnExit(c), j.(phase := phase))],
       procs := s.procs - {c.pid}, children := s.children - {c.pid})
  }

  // The goroutine returns, leaving a last word in the row.
  function DoFinish(s: State, e: nat, life: Life): State
    requires e in s.entries
  {
    SetJob(s.(rows := UpdateState(s.rows, s.entries[e].core.id, life)), e, s.entries[e].job.(phase := Done))
  }

  function DoRestart(s: State, e: nat): State
    requires e in s.entries
  {
    SetCore(SetJob(s, e, s.entries[e].job.(phase := Launching)), e, OnRestart(s.entries[e].core))
  }

  // The entry an id currently names, if any.
  predicate Known(s: State, id: string) { id in s.table && s.table[id] in s.entries }

  function DoRegister(s: State, id: string, conn: nat): State {
    if Known(s, id)
    then
      var c := s.entries[s.table[id]].core;
      SetCore(s.(rows := UpdateState(s.rows, id, Training)), s.table[id], OnRegister(c, conn))
    else s
  }

  function DoHeartbeat(s: State, id: string, at: int): State {
    if Known(s, id)
    then
      var c := s.entries[s.table[id]].core;
      SetCore(if c.life == Training then s.(rows := UpdateState(s.rows, id, Active)) else s,
              s.table[id], OnHeartbeat(c, at))
    else s
  }

  function DoDrop(s: State, id: string): State {
    if Known(s, id)
    then
      var e := s.table[id];
      var c := s.entries[e].core;
      var s' := SetCore(s, e, OnDrop(c));
      if Opens(c.track) then s'.(nextWindow := s.nextWindow + 1, window := s.window[e := s.nextWindow]) else s'
    else s
  }

  function WindowOf(s: State, e: nat): nat { if e in s.window then s.window[e] else 0 }

  // The timer of e fires, and its function waits to be run ...
  function DoTimerUp(s: State, e: nat): State
    requires e in s.entries && s.entries[e].core.track.timer == Armed
  {
    var c := s.entries[e].core;
    SetCore(s, e, c.(track := Fire(c.track))).(calls := s.calls + {Call(e, WindowOf(s, e))})
  }

  // ... and is run; whatever it does is a signal.
  function DoExpire(s: State, e: nat, window: nat): State { s.(calls := s.calls - {Call(e, window)}) }

  predicate IsLate(s: State, e: nat, now: int, cfg: Config) {
    e in s.entries && e in s.table.Values && Late(s.entries[e].core, now, cfg.heartbeatTimeout)
  }

  function DoCheck(s: State, now: int, cfg: Config): State {
    s.(entries := map e | e in s.entries ::
         if IsLate(s, e, now, cfg) then s.entries[e].(core := s.entries[e].core.(life := Unstable)) else s.entries[e],
       rows := map id | id in s.rows ::
         if id in s.table && IsLate(s, s.table[id], now, cfg) then s.rows[id].(life := Unstable) else s.rows[id])
  }

  function DoTerminate(s: State, id: string): State {
    if id in s.table then s.(rows := UpdateState(s.rows, id, Terminated)) else s
  }

  function DoCrash(s: State): State {
    s.(up := false, entries := map[], table := map[], children := map[], window := map[], calls := {})
  }

  function DoBoot(s: State, order: seq<string>): State {
    SpawnAll(s.(up := true, rows := MarkStale(s.rows)), order)
  }

  function Step(s: State, ev: Event, cfg: Config): State
    requires Enabled(s, ev)
  {
    match ev
    case Spawn(id) => DoSpawn(s, id)
    case StartFailed(e) => DoFinish(s, e, Unstable)
    case Started(e, pid) => DoStarted(s, e, pid)
    case Exited(e) => DoExited(s, e)
    case Decide(e, outcome) => DoDecide(s, e, outcome, cfg)
    case Cancelled(e) => DoFinish(s, e, Terminated)
    case Restart(e) => DoRestart(s, e)
    case Register(id, conn) => DoRegister(s, id, conn)
    case Heartbeat(id, at) => DoHeartbeat(s, id, at)
    case Drop(id) => DoDrop(s, id)
    case TimerUp(e) => DoTimerUp(s, e)
    case Expire(e, window) => DoExpire(s, e, window)
    case CheckHeartbeats(now) => DoCheck(s, now, cfg)
    case Terminate(id) => DoTerminate(s, id)
    case Environment(procs) => s.(procs := procs)
    case Crash => DoCrash(s)
    case Boot(order) => DoBoot(s, order)
  }

  // The signals a step sends.
  function Kills(s: State, ev: Event): set<nat>
    requires Enabled(s, ev)
  {
    match ev
    case Expire(e, _) =>
      var c := s.entries[e].core;
      if Expires(c.track) && Verified(s, c.pid) then {c.pid} else {}
    case Terminate(id) =>
      if Known(s, id) && Verified(s, s.entries[s.table[id]].core.pid)
      then {s.entries[s.table[id]].core.pid} else {}
    case Boot(order) => set id | id in order && id in s.rows && Verified(s, s.rows[id].pid) :: s.rows[id].pid
    case _ => {}
  }

  // --------------------------------------------------------------------------
  // Runs
  // --------------------------------------------------------------------------

  // A first start: no Lab running, no rows, any processes.
  predicate Initial(s: State) {
    && !s.up && s.entries == map[] && s.table == map[] && s.children == map[] && s.rows == map[]
    && s.window == map[] && s.calls == {}
  }

  predicate IsRun(ss: seq<State>, evs: seq<Event>, cfg: Config) {
    && |ss| == |evs| + 1
    && Initial(ss[0])
    && forall i :: 0 <= i < |evs| ==> Enabled(ss[i], evs[i]) && ss[i + 1] == Step(ss[i], evs[i], cfg)
  }
}
