// Runs that show the exceptions of SupervisorSafety and SupervisorRuns do happen.
module SupervisorWitnesses {
  import opened Option
  import opened Registry
  import opened Connection
  import opened SupervisorModel
  import opened SupervisorSafety
  import opened SupervisorRuns

  const CFG := Config(5, 10)   // where the timeout matters

  // One angel "A", the entry 0 of a running Lab; its process, if any, is 7.
  function Lab(life: Life, pid: nat, conn: Option<nat>, beat: Option<int>, link: Link, restarts: nat,
               phase: Phase, row: Life): State {
    var core := Core("A", life, restarts, pid, conn, beat, Tracker(link, NoTimer));
    var running := if phase == Waiting then map[7 := true] else map[];
    var starts := restarts + if phase == Waiting || phase == Exiting then 1 else 0;
    State(true, 1, map[0 := Entry(core, Job(phase, 0, starts, restarts, 0))], map["A" := 0],
          map["A" := Row(row, pid, restarts)], running, if phase == Waiting then map[7 := 0] else map[], 0, map[], {})
  }

  const ORIGIN := State(false, 0, map[], map[], map[], map[], map[], 0, map[], {})
  const BOOTED := ORIGIN.(up := true)
  const SPAWNED := Lab(Created, 0, None, None, Connecting, 0, Launching, Created)
  const STARTED := Lab(Created, 7, None, None, Connecting, 0, Waiting, Training)
  const REGISTERED := Lab(Training, 7, Some(1), None, Registered, 0, Waiting, Training)
  const BEATING := Lab(Active, 7, Some(1), Some(5), LinkActive, 0, Waiting, Active)

  const REPLACED := Lab(Training, 7, Some(2), Some(5), Registered, 0, Waiting, Training)
  const EXITED := Lab(Unstable, 7, None, None, Registered, 0, Exiting, Training)
  const WAITING := Lab(Unstable, 7, None, None, Registered, 1, BackingOff, Training)
  const RESTARTED := Lab(Unstable, 7, None, None, Connecting, 1, Launching, Training)
  const LATE := Lab(Unstable, 7, Some(1), Some(5), LinkActive, 0, Waiting, Unstable)
  const BACK := Lab(Active, 7, Some(1), Some(101), LinkActive, 0, Waiting, Unstable)

  // The same Lab in TRAINING with n recovery windows opened so far, the latest still
  // open or not, and the functions of the given windows waiting to be run.
  function Losing(conn: Option<nat>, track: Tracker, n: nat, calls: set<Call>): State {
    var core := Core("A", Training, 0, 7, conn, None, track);
    State(true, 1, map[0 := Entry(core, Job(Waiting, 0, 1, 0, 0))], map["A" := 0], map["A" := Row(Training, 7, 0)],
          map[7 := true], map[7 := 0], n, if n == 0 then map[] else map[0 := n - 1], calls)
  }

  const LOST_ONCE := Losing(None, Tracker(Recovering, Armed), 1, {})
  const RUNG := Losing(None, Tracker(Recovering, Fired), 1, {Call(0, 0)})
  const FOUND := Losing(Some(2), Tracker(Registered, NoTimer), 1, {Call(0, 0)})
  const LOST_AGAIN := Losing(None, Tracker(Recovering, Armed), 2, {Call(0, 0)})
  const EXPIRED := Losing(None, Tracker(Recovering, Armed), 2, {})

  // A run that ends in a given state.
  ghost predicate RunTo(ss: seq<State>, evs: seq<Event>, s: State, cfg: Config) {
    IsRun(ss, evs, cfg) && ss[|evs|] == s
  }

  lemma Extend(ss: seq<State>, evs: seq<Event>, s: State, ev: Event, s': State, cfg: Config)
    requires RunTo(ss, evs, s, cfg) && Enabled(s, ev) && Step(s, ev, cfg) == s'
    ensures RunTo(ss + [s'], evs + [ev], s', cfg)
    ensures (ss + [s'])[|evs|] == s && (evs + [ev])[|evs|] == ev && (ss + [s'])[|evs| + 1] == s'
  {
  }

  lemma Booting(cfg: Config) returns (ss: seq<State>, evs: seq<Event>)
    ensures RunTo(ss, evs, BOOTED, cfg) && evs == [Boot([])]
  {
    assert Recoverable(map[]) == {} && MarkStale(map[]) == map[];
    Extend([ORIGIN], [], ORIGIN, Boot([]), BOOTED, cfg);
    return [ORIGIN] + [BOOTED], [] + [Boot([])];
  }

  lemma Starting(cfg: Config) returns (ss: seq<State>, evs: seq<Event>)
    ensures RunTo(ss, evs, STARTED, cfg)
  {
    ss, evs := Booting(cfg);
    Extend(ss, evs, BOOTED, Spawn("A"), SPAWNED, cfg);
    Extend(ss + [SPAWNED], evs + [Spawn("A")], SPAWNED, Started(0, 7), STARTED, cfg);
    return ss + [SPAWNED] + [STARTED], evs + [Spawn("A")] + [Started(0, 7)];
  }

  lemma Registering(cfg: Config) returns (ss: seq<State>, evs: seq<Event>)
    ensures RunTo(ss, evs, REGISTERED, cfg)
  {
    ss, evs := Starting(cfg);
    Extend(ss, evs, STARTED, Register("A", 1), REGISTERED, cfg);
    return ss + [REGISTERED], evs + [Register("A", 1)];
  }

  lemma Beating(cfg: Config) returns (ss: seq<State>, evs: seq<Event>)
    ensures RunTo(ss, evs, BEATING, cfg)
  {
    ss, evs := Registering(cfg);
    Extend(ss, evs, REGISTERED, Heartbeat("A", 5), BEATING, cfg);
    return ss + [BEATING], evs + [Heartbeat("A", 5)];
  }

  // The last step of the run takes the link of entry 0 off the transition table.
  ghost predicate EndsOffTable(ss: seq<State>, evs: seq<Event>, cfg: Config) {
    var k := |evs| - 1;
    && IsRun(ss, evs, cfg) && k >= 0 && 0 in ss[k].entries && 0 in ss[k + 1].entries
    && OffTable(ss[k], evs[k], 0, ss[k].entries[0].core.track.link)
    && !ValidTransition(ss[k].entries[0].core.track.link, ss[k + 1].entries[0].core.track.link)
  }

  // Registering over a live link takes it from ACTIVE back to REGISTERED.
  lemma LiveLinkReplaced(cfg: Config) returns (ss: seq<State>, evs: seq<Event>)
    ensures EndsOffTable(ss, evs, cfg) && evs[|evs| - 1].Register?
  {
    ss, evs := Beating(cfg);
    Extend(ss, evs, BEATING, Register("A", 2), REPLACED, cfg);
    return ss + [REPLACED], evs + [Register("A", 2)];
  }

  lemma Leaving(cfg: Config) returns (ss: seq<State>, evs: seq<Event>)
    ensures RunTo(ss, evs, EXITED, cfg)
  {
    ss, evs := Registering(cfg);
    Extend(ss, evs, REGISTERED, Exited(0), EXITED, cfg);
    return ss + [EXITED], evs + [Exited(0)];
  }

  lemma BackingUp(cfg: Config) returns (ss: seq<State>, evs: seq<Event>)
    requires cfg.maxRestarts >= 2
    ensures RunTo(ss, evs, WAITING, cfg)
  {
    ss, evs := Leaving(cfg);
    Extend(ss, evs, EXITED, Decide(0, Counted), WAITING, cfg);
    return ss + [WAITING], evs + [Decide(0, Counted)];
  }

  // An exit leaves the link as it was, so a restart may find it registered.
  lemma LinkUpAtRestart(cfg: Config) returns (ss: seq<State>, evs: seq<Event>)
    requires cfg.maxRestarts >= 2
    ensures EndsOffTable(ss, evs, cfg) && evs[|evs| - 1].Restart?
  {
    ss, evs := BackingUp(cfg);
    Extend(ss, evs, WAITING, Restart(0), RESTARTED, cfg);
    return ss + [RESTARTED], evs + [Restart(0)];
  }

  lemma Ringing(cfg: Config) returns (ss: seq<State>, evs: seq<Event>)
    ensures RunTo(ss, evs, RUNG, cfg)
  {
    ss, evs := Registering(cfg);
    Extend(ss, evs, REGISTERED, Drop("A"), LOST_ONCE, cfg);
    ss, evs := ss + [LOST_ONCE], evs + [Drop("A")];
    Extend(ss, evs, LOST_ONCE, TimerUp(0), RUNG, cfg);
    return ss + [RUNG], evs + [TimerUp(0)];
  }

  lemma LosingAgain(cfg: Config) returns (ss: seq<State>, evs: seq<Event>)
    ensures RunTo(ss, evs, LOST_AGAIN, cfg)
  {
    ss, evs := Ringing(cfg);
    Extend(ss, evs, RUNG, Register("A", 2), FOUND, cfg);
    ss, evs := ss + [FOUND], evs + [Register("A", 2)];
    Extend(ss, evs, FOUND, Drop("A"), LOST_AGAIN, cfg);
    return ss + [LOST_AGAIN], evs + [Drop("A")];
  }

  // The function of window 0 starts, the angel registers again and is lost again, and
  // then the function kills it, in window 1 and before the time of that is up.
  lemma KilledForClosedWindow(cfg: Config) returns (ss: seq<State>, evs: seq<Event>)
    ensures IsRun(ss, evs, cfg) && |evs| > 0
    ensures var k := |evs| - 1;
            && evs[k] == Expire(0, 0) && Kills(ss[k], evs[k]) == {7}
            && 0 in ss[k].window && ss[k].window[0] == 1
            && 0 in ss[k].entries && ss[k].entries[0].core.track.timer == Armed
  {
    ss, evs := LosingAgain(cfg);
    Extend(ss, evs, LOST_AGAIN, Expire(0, 0), EXPIRED, cfg);
    return ss + [EXPIRED], evs + [Expire(0, 0)];
  }

  lemma Silent() returns (ss: seq<State>, evs: seq<Event>)
    ensures RunTo(ss, evs, LATE, CFG)
  {
    ss, evs := Beating(CFG);
    assert BEATING.table["A"] == 0;
    assert IsLate(BEATING, 0, 100, CFG);
    Extend(ss, evs, BEATING, CheckHeartbeats(100), LATE, CFG);
    return ss + [LATE], evs + [CheckHeartbeats(100)];
  }

  // A late angel that beats again is ACTIVE in memory and UNSTABLE in the registry.
  lemma RowStaysUnstable() returns (ss: seq<State>, evs: seq<Event>)
    ensures IsRun(ss, evs, CFG) && |evs| > 0 && evs[|evs| - 1].Heartbeat?
    ensures var s := ss[|evs|];
            && 0 in s.entries && s.entries[0].core.life == Active
            && "A" in s.rows && s.rows["A"].life == Unstable
  {
    ss, evs := Silent();
    Extend(ss, evs, LATE, Heartbeat("A", 101), BACK, CFG);
    return ss + [BACK], evs + [Heartbeat("A", 101)];
  }

  // --------------------------------------------------------------------------
  // The restart bound is reached
  // --------------------------------------------------------------------------

  // The Lab after i restarts, about to start the angel again ...
  function Cycle(i: nat): State {
    if i == 0 then SPAWNED else Lab(Unstable, 7, None, None, Connecting, i, Launching, Training)
  }

  // ... with the angel running, and with its process gone.
  function Running(i: nat): State {
    Lab(if i == 0 then Created else Unstable, 7, None, None, Connecting, i, Waiting, Training)
  }

  function Stopped(i: nat): State { Lab(Unstable, 7, None, None, Connecting, i, Exiting, Training) }

  ghost predicate CycleTo(ss: seq<State>, evs: seq<Event>, s: State, starts: nat, cfg: Config) {
    RunTo(ss, evs, s, cfg) && Starts(evs, 0) == starts && Failures(evs, 0) == 0
  }

  lemma ExtendCycle(ss: seq<State>, evs: seq<Event>, starts: nat, s: State, ev: Event, s': State, cfg: Config)
    requires CycleTo(ss, evs, s, starts, cfg) && Enabled(s, ev) && Step(s, ev, cfg) == s'
    requires ev.Decide? ==> ev.outcome == Counted
    ensures CycleTo(ss + [s'], evs + [ev], s', starts + (if ev.Started? && ev.e == 0 then 1 else 0), cfg)
  {
    Extend(ss, evs, s, ev, s', cfg);
    CountsAppend(evs, ev, 0);
  }

  lemma FirstCycle(cfg: Config) returns (ss: seq<State>, evs: seq<Event>)
    ensures CycleTo(ss, evs, SPAWNED, 0, cfg)
  {
    ss, evs := Booting(cfg);
    CountsAppend([], Boot([]), 0);
    assert [] + [Boot([])] == [Boot([])];
    ExtendCycle(ss, evs, 0, BOOTED, Spawn("A"), SPAWNED, cfg);
    return ss + [SPAWNED], evs + [Spawn("A")];
  }

  lemma StartStep(i: nat, cfg: Config)
    ensures Enabled(Cycle(i), Started(0, 7)) && Step(Cycle(i), Started(0, 7), cfg) == Running(i)
  {
  }

  lemma ExitStep(i: nat, cfg: Config)
    ensures Enabled(Running(i), Exited(0)) && Step(Running(i), Exited(0), cfg) == Stopped(i)
  {
  }

  // What the restart policy makes of it.
  function Decided(i: nat, cfg: Config): State {
    if i + 1 < cfg.maxRestarts then Lab(Unstable, 7, None, None, Connecting, i + 1, BackingOff, Training)
    else Lab(Unstable, 7, None, None, Connecting, i + 1, Done, Contained)
  }

  lemma DecideStep(i: nat, cfg: Config)
    ensures Enabled(Stopped(i), Decide(0, Counted)) && Step(Stopped(i), Decide(0, Counted), cfg) == Decided(i, cfg)
  {
  }

  lemma RestartStep(i: nat, cfg: Config)
    requires i + 1 < cfg.maxRestarts
    ensures Enabled(Decided(i, cfg), Restart(0)) && Step(Decided(i, cfg), Restart(0), cfg) == Cycle(i + 1)
  {
  }

  // One start more, up to the decision about the next.
  lemma OneCycle(ss: seq<State>, evs: seq<Event>, i: nat, cfg: Config) returns (ss': seq<State>, evs': seq<Event>)
    requires CycleTo(ss, evs, Cycle(i), i, cfg)
    ensures CycleTo(ss', evs', Decided(i, cfg), i + 1, cfg)
  {
    StartStep(i, cfg);
    ExtendCycle(ss, evs, i, Cycle(i), Started(0, 7), Running(i), cfg);
    ss', evs' := RestOfCycle(ss + [Running(i)], evs + [Started(0, 7)], i, cfg);
  }

  lemma RestOfCycle(ss: seq<State>, evs: seq<Event>, i: nat, cfg: Config) returns (ss': seq<State>, evs': seq<Event>)
    requires CycleTo(ss, evs, Running(i), i + 1, cfg)
    ensures CycleTo(ss', evs', Decided(i, cfg), i + 1, cfg)
  {
    ExitStep(i, cfg);
    ExtendCycle(ss, evs, i + 1, Running(i), Exited(0), Stopped(i), cfg);
    ss', evs' := Deciding(ss + [Stopped(i)], evs + [Exited(0)], i, cfg);
  }

  lemma Deciding(ss: seq<State>, evs: seq<Event>, i: nat, cfg: Config) returns (ss': seq<State>, evs': seq<Event>)
    requires CycleTo(ss, evs, Stopped(i), i + 1, cfg)
    ensures CycleTo(ss', evs', Decided(i, cfg), i + 1, cfg)
  {
    DecideStep(i, cfg);
    ExtendCycle(ss, evs, i + 1, Stopped(i), Decide(0, Counted), Decided(i, cfg), cfg);
    return ss + [Decided(i, cfg)], evs + [Decide(0, Counted)];
  }

  lemma Restarting(ss: seq<State>, evs: seq<Event>, i: nat, cfg: Config) returns (ss': seq<State>, evs': seq<Event>)
    requires CycleTo(ss, evs, Decided(i, cfg), i + 1, cfg) && i + 1 < cfg.maxRestarts
    ensures CycleTo(ss', evs', Cycle(i + 1), i + 1, cfg)
  {
    RestartStep(i, cfg);
    ExtendCycle(ss, evs, i + 1, Decided(i, cfg), Restart(0), Cycle(i + 1), cfg);
    return ss + [Cycle(i + 1)], evs + [Restart(0)];
  }

  lemma Round(ss: seq<State>, evs: seq<Event>, i: nat, cfg: Config) returns (ss': seq<State>, evs': seq<Event>)
    requires CycleTo(ss, evs, Cycle(i), i, cfg) && i + 1 < cfg.maxRestarts
    ensures CycleTo(ss', evs', Cycle(i + 1), i + 1, cfg)
  {
    ss', evs' := OneCycle(ss, evs, i, cfg);
    ss', evs' := Restarting(ss', evs', i, cfg);
  }

  lemma {:induction false} Cycles(i: nat, cfg: Config) returns (ss: seq<State>, evs: seq<Event>)
    requires i == 0 || i < cfg.maxRestarts
    ensures CycleTo(ss, evs, Cycle(i), i, cfg)
  {
    if i == 0 {
      ss, evs := FirstCycle(cfg);
    } else {
      ss, evs := Cycles(i - 1, cfg);
      ss, evs := Round(ss, evs, i - 1, cfg);
    }
  }

  // Whatever the limit, some run starts the process of a new angel as often as the bound
  // allows, and then contains it.
  lemma BoundReached(cfg: Config) returns (ss: seq<State>, evs: seq<Event>)
    ensures IsRun(ss, evs, cfg) && Failures(evs, 0) == 0
    ensures Starts(evs, 0) == if cfg.maxRestarts > 1 then cfg.maxRestarts else 1
    ensures "A" in ss[|evs|].rows && ss[|evs|].rows["A"].life == Contained
  {
    var n: nat := if cfg.maxRestarts > 1 then cfg.maxRestarts - 1 else 0;
    ss, evs := Cycles(n, cfg);
    ss, evs := OneCycle(ss, evs, n, cfg);
  }

  // --------------------------------------------------------------------------
  // A crash before the first heartbeat
  // --------------------------------------------------------------------------

  const CRASHED := STARTED.(up := false, entries := map[], table := map[], children := map[])
  const REBOOTED :=
    State(true, 2, map[1 := Entry(NewCore("A"), Job(Launching, 0, 0, 0, 0))], map["A" := 1],
          map["A" := Row(Created, 0, 0)], map[7 := true], map[], 0, map[], {})

  // Lab crashes while a started angel has not sent a heartbeat yet; the next boot kills
  // the process that is left and launches the angel anew.
  lemma TrainingRecovered(cfg: Config) returns (ss: seq<State>, evs: seq<Event>)
    ensures IsRun(ss, evs, cfg) && |evs| > 0 && ss[|evs|] == REBOOTED
    ensures evs[|evs| - 1] == Boot(["A"]) && Kills(ss[|evs| - 1], evs[|evs| - 1]) == {7}
  {
    ss, evs := Starting(cfg);
    Extend(ss, evs, STARTED, Crash, CRASHED, cfg);
    ss, evs := ss + [CRASHED], evs + [Crash];
    RebootStep(cfg);
    Extend(ss, evs, CRASHED, Boot(["A"]), REBOOTED, cfg);
    return ss + [REBOOTED], evs + [Boot(["A"])];
  }

  lemma RebootStep(cfg: Config)
    ensures Enabled(CRASHED, Boot(["A"])) && Step(CRASHED, Boot(["A"]), cfg) == REBOOTED
    ensures Kills(CRASHED, Boot(["A"])) == {7}
  {
    assert (set id | id in ["A"]) == {"A"} == Recoverable(CRASHED.rows);
    var mid := CRASHED.(up := true, rows := MarkStale(CRASHED.rows));
    assert mid.rows == map["A" := Row(Created, 0, 0)];
    assert SpawnAll(mid, ["A"][..0]) == mid;
    assert SpawnAll(mid, ["A"]) == DoSpawn(mid, "A");
    assert DoSpawn(mid, "A") == REBOOTED;
    assert Kills(CRASHED, Boot(["A"])) == {7} by {
      assert "A" in ["A"] && CRASHED.rows["A"].pid == 7;
    }
  }
}
