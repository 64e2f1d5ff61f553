// Safety over whole runs of the supervisor: signals, restarts, crashes, boots.
module SupervisorRuns {
  import opened Option
  import opened Registry
  import opened Connection
  import opened SupervisorModel
  import opened SupervisorSafety

  // --------------------------------------------------------------------------
  // Entries that a step creates
  // --------------------------------------------------------------------------

  ghost predicate OnlyNew(s: State, s': State) {
    && s.next <= s'.next
    && forall e :: e in s'.entries && e !in s.entries ==>
         s.next <= e && s'.entries[e].core.track == Tracker(Connecting, NoTimer)
         && s'.entries[e].job.starts == 0 && s'.entries[e].job.failed == 0
  }

  lemma {:induction false} SpawnAllNew(s: State, order: seq<string>)
    requires forall e :: e in s.entries ==> e < s.next
    ensures OnlyNew(s, SpawnAll(s, order))
    ensures forall e :: e in SpawnAll(s, order).entries ==> e < SpawnAll(s, order).next
  {
    if order != [] {
      SpawnAllNew(s, order[..|order| - 1]);
    }
  }

  lemma StepNew(s: State, ev: Event, cfg: Config)
    requires Inv(s, cfg) && Enabled(s, ev)
    ensures OnlyNew(s, Step(s, ev, cfg))
  {
    if ev.Boot? {
      SpawnAllNew(s.(up := true, rows := MarkStale(s.rows)), ev.order);
    } else if ev.Spawn? {
      assert OnlyNew(s, DoSpawn(s, ev.id));
    } else {
      NoneNew(s, ev, cfg);
    }
  }

  lemma NoneNew(s: State, ev: Event, cfg: Config)
    requires Enabled(s, ev) && !ev.Boot? && !ev.Spawn?
    ensures Step(s, ev, cfg).next == s.next && Step(s, ev, cfg).entries.Keys <= s.entries.Keys
  {
  }

  // --------------------------------------------------------------------------
  // Signals
  // --------------------------------------------------------------------------

  lemma {:induction false} SpawnAllPids(s: State, order: seq<string>)
    requires forall e :: e in s.entries ==> e < s.next
    ensures var s' := SpawnAll(s, order);
            && (forall e :: e in s'.entries ==> e < s'.next)
            && (forall e :: e in s.entries ==> e in s'.entries && s'.entries[e] == s.entries[e])
            && (forall e :: e in s'.entries && e !in s.entries ==> s'.entries[e].core.pid == 0)
            && (forall id :: id in s'.rows && s'.rows[id].pid > 0 ==> id in s.rows && s.rows[id].pid == s'.rows[id].pid)
  {
    if order != [] {
      SpawnAllPids(s, order[..|order| - 1]);
    }
  }

  // A pid after a step was written by a start or was there before.
  ghost predicate RowPidFrom(s: State, ev: Event, s': State, id: string) {
    id in s'.rows && s'.rows[id].pid > 0 ==>
      || (ev.Started? && ev.pid == s'.rows[id].pid && ev.e in s.entries && s.entries[ev.e].core.id == id)
      || (id in s.rows && s.rows[id].pid == s'.rows[id].pid)
  }

  ghost predicate EntryPidFrom(s: State, ev: Event, s': State, e: nat) {
    e in s'.entries && s'.entries[e].core.pid > 0 ==>
      ev == Started(e, s'.entries[e].core.pid) || (e in s.entries && s.entries[e].core.pid == s'.entries[e].core.pid)
  }

  lemma GoroutinePids(s: State, ev: Event, id: string, e: nat, cfg: Config)
    requires Enabled(s, ev)
    requires OfEntry(ev)
    ensures RowPidFrom(s, ev, Step(s, ev, cfg), id) && EntryPidFrom(s, ev, Step(s, ev, cfg), e)
  {
  }

  lemma AddressedPids(s: State, ev: Event, id: string, e: nat, cfg: Config)
    requires Enabled(s, ev) && OfMessage(ev)
    ensures RowPidFrom(s, ev, Step(s, ev, cfg), id) && EntryPidFrom(s, ev, Step(s, ev, cfg), e)
  {
  }

  lemma GlobalPids(s: State, ev: Event, id: string, e: nat, cfg: Config)
    requires Enabled(s, ev)
    requires ev.Spawn? || ev.CheckHeartbeats? || ev.Terminate? || ev.Environment? || ev.Crash?
    ensures RowPidFrom(s, ev, Step(s, ev, cfg), id) && EntryPidFrom(s, ev, Step(s, ev, cfg), e)
  {
  }

  lemma StepPids(s: State, ev: Event, id: string, e: nat, cfg: Config)
    requires Inv(s, cfg) && Enabled(s, ev)
    ensures RowPidFrom(s, ev, Step(s, ev, cfg), id) && EntryPidFrom(s, ev, Step(s, ev, cfg), e)
  {
    if ev.Boot? {
      SpawnAllPids(s.(up := true, rows := MarkStale(s.rows)), ev.order);
    } else if OfMessage(ev) {
      AddressedPids(s, ev, id, e, cfg);
    } else if ev.Spawn? || ev.CheckHeartbeats? || ev.Terminate? || ev.Environment? || ev.Crash? {
      GlobalPids(s, ev, id, e, cfg);
    } else {
      GoroutinePids(s, ev, id, e, cfg);
    }
  }

  lemma PidsFrom(ss: seq<State>, evs: seq<Event>, cfg: Config, k: nat, id: string, e: nat)
    requires IsRun(ss, evs, cfg) && k < |evs|
    ensures RowPidFrom(ss[k], evs[k], ss[k + 1], id) && EntryPidFrom(ss[k], evs[k], ss[k + 1], e)
  {
    Reachable(ss, evs, cfg, k);
    StepPids(ss[k], evs[k], id, e, cfg);
  }

  // A pid in a row is that of a process some entry of this id started ...
  lemma {:induction false} RowPidStarted(ss: seq<State>, evs: seq<Event>, cfg: Config, k: nat, id: string)
    returns (j: nat, e: nat)
    requires IsRun(ss, evs, cfg) && k <= |evs| && id in ss[k].rows && ss[k].rows[id].pid > 0
    ensures j < k && evs[j] == Started(e, ss[k].rows[id].pid)
    ensures e in ss[j].entries && ss[j].entries[e].core.id == id
  {
    assert k > 0;
    PidsFrom(ss, evs, cfg, k - 1, id, 0);
    var ev := evs[k - 1];
    var pid := ss[k].rows[id].pid;
    if ev.Started? && ev.pid == pid && ev.e in ss[k - 1].entries && ss[k - 1].entries[ev.e].core.id == id {
      j, e := k - 1, ev.e;
    } else {
      j, e := RowPidStarted(ss, evs, cfg, k - 1, id);
    }
  }

  // ... and a pid in an entry that of a process this entry started.
  lemma {:induction false} EntryPidStarted(ss: seq<State>, evs: seq<Event>, cfg: Config, k: nat, e: nat)
    returns (j: nat)
    requires IsRun(ss, evs, cfg) && k <= |evs| && e in ss[k].entries && ss[k].entries[e].core.pid > 0
    ensures j < k && evs[j] == Started(e, ss[k].entries[e].core.pid)
  {
    assert k > 0;
    PidsFrom(ss, evs, cfg, k - 1, "", e);
    if evs[k - 1] == Started(e, ss[k].entries[e].core.pid) {
      j := k - 1;
    } else {
      j := EntryPidStarted(ss, evs, cfg, k - 1, e);
    }
  }

  // Every process ever signalled shows an angel's command line and carries a number the
  // run started a process under: for an expired window the entry's own, for a
  // termination that of the entry the id names now, at boot that of the id whose row
  // still records it and was ACTIVE or TRAINING.
  lemma VictimWasStarted(ss: seq<State>, evs: seq<Event>, cfg: Config, k: nat, pid: nat) returns (j: nat, e: nat)
    requires IsRun(ss, evs, cfg) && k < |evs| && pid in Kills(ss[k], evs[k])
    ensures Verified(ss[k], pid)
    ensures j < k && evs[j] == Started(e, pid) && e in ss[j].entries
    ensures match evs[k]
            case Expire(x, _) => x == e
            case Terminate(id) => Is(ss[k], id, e)
            case Boot(_) =>
              var id := ss[j].entries[e].core.id;
              && id in ss[k].rows && ss[k].rows[id].pid == pid
              && (ss[k].rows[id].life == Active || ss[k].rows[id].life == Training)
            case _ => false
  {
    match evs[k]
    case Expire(x, _) =>
      e := x;
      j := EntryPidStarted(ss, evs, cfg, k, e);
      StartedExists(ss, evs, cfg, j);
    case Terminate(id) =>
      e := ss[k].table[id];
      j := EntryPidStarted(ss, evs, cfg, k, e);
      StartedExists(ss, evs, cfg, j);
    case Boot(order) =>
      var id :| id in order && id in ss[k].rows && Verified(ss[k], ss[k].rows[id].pid) && ss[k].rows[id].pid == pid;
      assert id in set x | x in order;
      assert id in Recoverable(ss[k].rows);
      j, e := RowPidStarted(ss, evs, cfg, k, id);
  }

  lemma StartedExists(ss: seq<State>, evs: seq<Event>, cfg: Config, j: nat)
    requires IsRun(ss, evs, cfg) && j < |evs| && evs[j].Started?
    ensures evs[j].e in ss[j].entries
  {
    assert Enabled(ss[j], evs[j]);
  }

  // The victim of an expired window is the entry's own child exactly while its
  // goroutine waits for it; later the number may belong to anyone.
  lemma ExpiryVictim(ss: seq<State>, evs: seq<Event>, cfg: Config, k: nat, e: nat, pid: nat)
    requires IsRun(ss, evs, cfg) && k < |evs| && evs[k].Expire? && evs[k].e == e && pid in Kills(ss[k], evs[k])
    ensures pid in ss[k].children && ss[k].children[pid] == e <==> At(ss[k], e, Waiting)
  {
    Reachable(ss, evs, cfg, k);
  }

  // --------------------------------------------------------------------------
  // Restarts
  // --------------------------------------------------------------------------

  function StartOf(ev: Event, e: nat): nat { if ev.Started? && ev.e == e then 1 else 0 }

  // A restart count that could not be written or read back.
  function FailureOf(ev: Event, e: nat): nat { if ev.Decide? && ev.e == e && ev.outcome != Counted then 1 else 0 }

  function Starts(evs: seq<Event>, e: nat): nat {
    if evs == [] then 0 else Starts(evs[..|evs| - 1], e) + StartOf(evs[|evs| - 1], e)
  }

  function Failures(evs: seq<Event>, e: nat): nat {
    if evs == [] then 0 else Failures(evs[..|evs| - 1], e) + FailureOf(evs[|evs| - 1], e)
  }

  ghost predicate JobFollows(j: Job, ev: Event, e: nat, j': Job) {
    && j'.c0 == j.c0
    && j'.starts == j.starts + StartOf(ev, e)
    && j'.failed == j.failed + FailureOf(ev, e)
    && (j.phase == Done ==> j'.phase == Done)
  }

  lemma JobStepGoroutine(s: State, ev: Event, e: nat, cfg: Config)
    requires Enabled(s, ev) && e in s.entries
    requires OfEntry(ev)
    ensures e in Step(s, ev, cfg).entries && JobFollows(s.entries[e].job, ev, e, Step(s, ev, cfg).entries[e].job)
  {
  }

  lemma DropJob(s: State, id: string, e: nat)
    requires e in s.entries
    ensures e in DoDrop(s, id).entries && DoDrop(s, id).entries[e].job == s.entries[e].job
  {
    DropEntries(s, id);
  }

  lemma JobStepAddressed(s: State, ev: Event, e: nat, cfg: Config)
    requires Enabled(s, ev) && e in s.entries && OfMessage(ev)
    ensures e in Step(s, ev, cfg).entries && JobFollows(s.entries[e].job, ev, e, Step(s, ev, cfg).entries[e].job)
  {
    if ev.Drop? {
      DropJob(s, ev.id, e);
    }
  }

  lemma JobStepOther(s: State, ev: Event, e: nat, cfg: Config)
    requires Enabled(s, ev) && e in s.entries && e < s.next
    requires ev.Spawn? || ev.CheckHeartbeats? || ev.Terminate? || ev.Environment?
    ensures e in Step(s, ev, cfg).entries && JobFollows(s.entries[e].job, ev, e, Step(s, ev, cfg).entries[e].job)
  {
    assert e != s.next;
  }

  lemma JobStep(s: State, ev: Event, e: nat, cfg: Config)
    requires Inv(s, cfg) && Enabled(s, ev) && e in s.entries
    ensures e in Step(s, ev, cfg).entries ==> JobFollows(s.entries[e].job, ev, e, Step(s, ev, cfg).entries[e].job)
  {
    if ev.Spawn? || ev.CheckHeartbeats? || ev.Terminate? || ev.Environment? {
      JobStepOther(s, ev, e, cfg);
    } else if OfMessage(ev) {
      JobStepAddressed(s, ev, e, cfg);
    } else if !ev.Boot? && !ev.Crash? {
      JobStepGoroutine(s, ev, e, cfg);
    }
  }

  lemma CountsAppend(evs: seq<Event>, ev: Event, e: nat)
    ensures Starts(evs + [ev], e) == Starts(evs, e) + StartOf(ev, e)
    ensures Failures(evs + [ev], e) == Failures(evs, e) + FailureOf(ev, e)
  {
    assert (evs + [ev])[..|evs|] == evs;
  }

  // The history in each job is the history of the run.
  lemma {:induction false} JobsCount(ss: seq<State>, evs: seq<Event>, cfg: Config, k: nat, e: nat)
    requires IsRun(ss, evs, cfg) && k <= |evs|
    ensures e in ss[k].entries ==>
              && ss[k].entries[e].job.starts == Starts(evs[..k], e)
              && ss[k].entries[e].job.failed == Failures(evs[..k], e)
    ensures e >= ss[k].next ==> Starts(evs[..k], e) == 0 && Failures(evs[..k], e) == 0
  {
    if k > 0 {
      var s, ev := ss[k - 1], evs[k - 1];
      Reachable(ss, evs, cfg, k - 1);
      JobsCount(ss, evs, cfg, k - 1, e);
      StepNew(s, ev, cfg);
      assert evs[..k] == evs[..k - 1] + [ev];
      CountsAppend(evs[..k - 1], ev, e);
      if e in s.entries {
        JobStep(s, ev, e, cfg);
      } else {
        NoEventsFor(s, ev, e);
      }
    }
  }

  lemma NoEventsFor(s: State, ev: Event, e: nat)
    requires Enabled(s, ev) && e !in s.entries
    ensures StartOf(ev, e) == 0 && FailureOf(ev, e) == 0
  {
  }

  function CountOf(t: Table, id: string): nat { if id in t then t[id].restarts else 0 }

  lemma {:induction false} SpawnAllBirths(s: State, order: seq<string>)
    ensures var s' := SpawnAll(s, order);
            && (forall id :: CountOf(s'.rows, id) == CountOf(s.rows, id))
            && (forall e :: e in s'.entries && e !in s.entries ==>
                  s'.entries[e].job.c0 == CountOf(s.rows, s'.entries[e].core.id))
  {
    if order != [] {
      SpawnAllBirths(s, order[..|order| - 1]);
    }
  }

  // An entry is created by a spawn or a boot, and its goroutine counts from what its row
  // said before that.
  lemma Birth(s: State, ev: Event, e: nat, cfg: Config)
    requires Enabled(s, ev) && e !in s.entries && e in Step(s, ev, cfg).entries
    ensures ev.Spawn? || ev.Boot?
    ensures var entry := Step(s, ev, cfg).entries[e]; entry.job.c0 == CountOf(s.rows, entry.core.id)
  {
    if ev.Boot? {
      SpawnAllBirths(s.(up := true, rows := MarkStale(s.rows)), ev.order);
    } else if !ev.Spawn? {
      NoneNew(s, ev, cfg);
    }
  }

  // Every entry that ever exists has such a step.
  lemma Born(ss: seq<State>, evs: seq<Event>, cfg: Config, k: nat, e: nat) returns (j: nat)
    requires IsRun(ss, evs, cfg) && k <= |evs| && e in ss[k].entries
    ensures j < k && e !in ss[j].entries && e in ss[j + 1].entries
  {
    j := Appearance(ss, k, e);
  }

  lemma {:induction false} Appearance(ss: seq<State>, k: nat, e: nat) returns (j: nat)
    requires k < |ss| && ss[0].entries == map[] && e in ss[k].entries
    ensures j < k && e !in ss[j].entries && e in ss[j + 1].entries
  {
    assert k > 0;
    j := k - 1;
    if e in ss[j].entries {
      j := Appearance(ss, j, e);
    }
  }

  lemma RemovedQuietly(s: State, ev: Event, e: nat, cfg: Config)
    requires Enabled(s, ev) && e !in Step(s, ev, cfg).entries
    ensures StartOf(ev, e) == 0 && FailureOf(ev, e) == 0
  {
  }

  lemma NextGrows(ss: seq<State>, evs: seq<Event>, cfg: Config, i: nat, k: nat)
    requires IsRun(ss, evs, cfg) && i <= k <= |evs|
    ensures ss[i].next <= ss[k].next
  {
    var nexts := seq(|ss|, m requires 0 <= m < |ss| => ss[m].next);
    forall m | 0 <= m < |evs|
      ensures nexts[m] <= nexts[m + 1]
    {
      NextStep(ss, evs, cfg, m);
    }
    Growing(nexts, i, k);
  }

  lemma NextStep(ss: seq<State>, evs: seq<Event>, cfg: Config, k: nat)
    requires IsRun(ss, evs, cfg) && k < |evs|
    ensures ss[k].next <= ss[k + 1].next
  {
    Reachable(ss, evs, cfg, k);
    StepNew(ss[k], evs[k], cfg);
  }

  lemma {:induction false} Growing(nexts: seq<nat>, i: nat, k: nat)
    requires i <= k < |nexts| && forall m :: 0 <= m < |nexts| - 1 ==> nexts[m] <= nexts[m + 1]
    ensures nexts[i] <= nexts[k]
    decreases k
  {
    if i < k {
      assert nexts[k - 1] <= nexts[k - 1 + 1];
      Growing(nexts, i, k - 1);
    }
  }

  // An entry that is gone does not come back.
  lemma NeverReborn(ss: seq<State>, evs: seq<Event>, cfg: Config, j: nat, k: nat, e: nat)
    requires IsRun(ss, evs, cfg) && j <= k < |evs| && e in ss[j].entries && e in ss[k + 1].entries
    ensures e in ss[k].entries
  {
    Reachable(ss, evs, cfg, j);
    assert e < ss[j].next;
    NextGrows(ss, evs, cfg, j, k);
    Reachable(ss, evs, cfg, k);
    NotReused(ss[k], evs[k], e, cfg);
  }

  lemma NotReused(s: State, ev: Event, e: nat, cfg: Config)
    requires Inv(s, cfg) && Enabled(s, ev) && e < s.next && e in Step(s, ev, cfg).entries
    ensures e in s.entries
  {
    StepNew(s, ev, cfg);
  }

  // The restart count the goroutine of e counts from, while e exists.
  function C0(s: State, e: nat): Option<nat> {
    if e in s.entries then Some(s.entries[e].job.c0) else None
  }

  lemma C0Step(ss: seq<State>, evs: seq<Event>, cfg: Config, j: nat, k: nat, e: nat)
    requires IsRun(ss, evs, cfg) && j <= k < |evs| && e in ss[j].entries && e in ss[k + 1].entries
    ensures C0(ss[k], e) == C0(ss[k + 1], e)
  {
    NeverReborn(ss, evs, cfg, j, k, e);
    Reachable(ss, evs, cfg, k);
    JobStep(ss[k], evs[k], e, cfg);
  }

  lemma C0Kept(ss: seq<State>, evs: seq<Event>, cfg: Config, j: nat, k: nat, e: nat)
    requires IsRun(ss, evs, cfg) && j <= k <= |evs| && e in ss[j].entries && e in ss[k].entries
    ensures C0(ss[k], e) == C0(ss[j], e)
  {
    var counts := seq(|ss|, i requires 0 <= i < |ss| => C0(ss[i], e));
    forall i | j <= i < k && counts[i + 1].Some?
      ensures counts[i] == counts[i + 1]
    {
      C0Step(ss, evs, cfg, j, i, e);
    }
    Steady(counts, j, k);
  }

  lemma {:induction false} Steady(counts: seq<Option<nat>>, j: nat, k: nat)
    requires j <= k < |counts| && counts[k].Some?
    requires forall i :: j <= i < k && counts[i + 1].Some? ==> counts[i] == counts[i + 1]
    ensures counts[j] == counts[k]
    decreases k
  {
    if j < k {
      assert counts[k - 1] == counts[k - 1 + 1];
      Steady(counts, j, k - 1);
    }
  }

  lemma QuietStep(ss: seq<State>, evs: seq<Event>, cfg: Config, k: nat, e: nat)
    requires IsRun(ss, evs, cfg) && k < |evs| && e !in ss[k + 1].entries
    ensures Starts(evs[..k + 1], e) == Starts(evs[..k], e) && Failures(evs[..k + 1], e) == Failures(evs[..k], e)
  {
    RemovedQuietly(ss[k], evs[k], e, cfg);
    assert evs[..k + 1] == evs[..k] + [evs[k]];
    CountsAppend(evs[..k], evs[k], e);
  }

  lemma BirthCount(ss: seq<State>, evs: seq<Event>, cfg: Config, j: nat, e: nat)
    requires IsRun(ss, evs, cfg) && j < |evs| && e !in ss[j].entries && e in ss[j + 1].entries
    ensures ss[j + 1].entries[e].job.c0 == CountOf(ss[j].rows, ss[j + 1].entries[e].core.id)
    ensures evs[j].Spawn? || evs[j].Boot?
  {
    Birth(ss[j], evs[j], e, cfg);
  }

  lemma BoundNow(ss: seq<State>, evs: seq<Event>, cfg: Config, k: nat, e: nat)
    requires IsRun(ss, evs, cfg) && k <= |evs| && e in ss[k].entries
    ensures Starts(evs[..k], e) <= Limit(ss[k].entries[e].job.c0, cfg.maxRestarts) + Failures(evs[..k], e)
  {
    Reachable(ss, evs, cfg, k);
    JobsCount(ss, evs, cfg, k, e);
  }

  // One goroutine starts its process at most max(1, MaxRestarts - c0) times, plus once
  // for every restart that could not be counted, where c0 is what its row's restart
  // count was before the step that created the entry.  That holds at every later moment,
  // also after a crash.
  lemma RestartBound(ss: seq<State>, evs: seq<Event>, cfg: Config, j: nat, k: nat, e: nat)
    requires IsRun(ss, evs, cfg) && j < k <= |evs|
    requires e !in ss[j].entries && e in ss[j + 1].entries
    ensures var c0 := CountOf(ss[j].rows, ss[j + 1].entries[e].core.id);
            Starts(evs[..k], e) <= Limit(c0, cfg.maxRestarts) + Failures(evs[..k], e)
  {
    var m := LastAlive(ss, evs, cfg, j, k, e);
    BirthCount(ss, evs, cfg, j, e);
    C0Kept(ss, evs, cfg, j + 1, m, e);
    BoundNow(ss, evs, cfg, m, e);
  }

  // The last moment up to k at which e existed; nothing of its history is missing there.
  lemma {:induction false} LastAlive(ss: seq<State>, evs: seq<Event>, cfg: Config, j: nat, k: nat, e: nat)
    returns (m: nat)
    requires IsRun(ss, evs, cfg) && j < k <= |evs| && e in ss[j + 1].entries
    ensures j < m <= k && e in ss[m].entries
    ensures Starts(evs[..m], e) == Starts(evs[..k], e) && Failures(evs[..m], e) == Failures(evs[..k], e)
    decreases k
  {
    m := k;
    if e !in ss[k].entries {
      QuietStep(ss, evs, cfg, k - 1, e);
      m := LastAlive(ss, evs, cfg, j, k - 1, e);
    }
  }

  // Live processes and waiting goroutines are in one-to-one correspondence, so an
  // entry has at most one process at a time.
  lemma OneProcess(ss: seq<State>, evs: seq<Event>, cfg: Config, k: nat, p: nat, q: nat)
    requires IsRun(ss, evs, cfg) && k <= |evs|
    requires p in ss[k].children && q in ss[k].children && ss[k].children[p] == ss[k].children[q]
    ensures p == q && p in ss[k].procs && At(ss[k], ss[k].children[p], Waiting)
  {
    Reachable(ss, evs, cfg, k);
  }

  ghost predicate Gone(s: State, e: nat) {
    if e in s.entries then s.entries[e].job.phase == Done else e < s.next
  }

  lemma GoneStays(s: State, ev: Event, e: nat, cfg: Config)
    requires Inv(s, cfg) && Enabled(s, ev) && Gone(s, e)
    ensures Gone(Step(s, ev, cfg), e)
    ensures !(ev.Started? && ev.e == e)
  {
    StepNew(s, ev, cfg);
    if e in s.entries {
      JobStep(s, ev, e, cfg);
    }
  }

  lemma {:induction false} GoneForever(ss: seq<State>, evs: seq<Event>, cfg: Config, k: nat, m: nat, e: nat)
    requires IsRun(ss, evs, cfg) && k <= m < |evs| && Gone(ss[k], e)
    ensures Gone(ss[m], e) && !(evs[m].Started? && evs[m].e == e)
    decreases m
  {
    if k < m {
      GoneForever(ss, evs, cfg, k, m - 1, e);
      Reachable(ss, evs, cfg, m - 1);
      GoneStays(ss[m - 1], evs[m - 1], e, cfg);
    }
    Reachable(ss, evs, cfg, m);
    GoneStays(ss[m], evs[m], e, cfg);
  }

  // A goroutine whose count has reached the limit records CONTAINED and never starts a
  // process again.
  lemma ContainedIsFinal(ss: seq<State>, evs: seq<Event>, cfg: Config, k: nat, m: nat, e: nat, outcome: Outcome)
    requires IsRun(ss, evs, cfg) && k < m < |evs| && evs[k] == Decide(e, outcome)
    requires IncrementRestarts(ss[k].rows, ss[k].entries[e].core.id, outcome).1 >= cfg.maxRestarts
    ensures ss[k].entries[e].core.id in ss[k + 1].rows
    ensures ss[k + 1].rows[ss[k].entries[e].core.id].life == Contained
    ensures !(evs[m].Started? && evs[m].e == e)
  {
    Reachable(ss, evs, cfg, k);
    assert Gone(ss[k + 1], e);
    GoneForever(ss, evs, cfg, k + 1, m, e);
  }

  // --------------------------------------------------------------------------
  // The registry across crashes and boots
  // --------------------------------------------------------------------------

  lemma {:induction false} SpawnAllCounts(s: State, order: seq<string>)
    ensures CountsKept(s.rows, SpawnAll(s, order).rows)
  {
    if order != [] {
      SpawnAllCounts(s, order[..|order| - 1]);
    }
  }

  lemma GoroutineCounts(s: State, ev: Event, cfg: Config)
    requires Enabled(s, ev)
    requires OfEntry(ev)
    ensures CountsKept(s.rows, Step(s, ev, cfg).rows)
  {
  }

  lemma StepCounts(s: State, ev: Event, cfg: Config)
    requires Enabled(s, ev)
    ensures CountsKept(s.rows, Step(s, ev, cfg).rows)
  {
    if ev.Boot? {
      SpawnAllCounts(s.(up := true, rows := MarkStale(s.rows)), ev.order);
    } else if OfEntry(ev) {
      GoroutineCounts(s, ev, cfg);
    }
  }

  // Restart counts never decrease and no row disappears, whatever happens.
  lemma {:induction false} CountsNeverFall(ss: seq<State>, evs: seq<Event>, cfg: Config, i: nat, j: nat)
    requires IsRun(ss, evs, cfg) && i <= j <= |evs|
    ensures CountsKept(ss[i].rows, ss[j].rows)
    decreases j
  {
    if i < j {
      CountsNeverFall(ss, evs, cfg, i, j - 1);
      StepCounts(ss[j - 1], evs[j - 1], cfg);
    }
  }

  lemma {:induction false} SpawnAllRows(s: State, order: seq<string>)
    requires forall id :: id in order ==> id in s.rows
    ensures SpawnAll(s, order).rows
            == map id | id in s.rows :: if id in order then s.rows[id].(life := Created) else s.rows[id]
    ensures SpawnAll(s, order).table.Keys == s.table.Keys + set id | id in order
  {
    if order != [] {
      var n := |order| - 1;
      SpawnAllRows(s, order[..n]);
      assert order == order[..n] + [order[n]];
    }
  }

  // Every id of the order names a fresh entry about to launch.
  ghost predicate Fresh(s: State, id: string) {
    id in s.table && At(s, s.table[id], Launching) && s.entries[s.table[id]].core == NewCore(id) && s.table[id] < s.next
  }

  lemma {:induction false} SpawnAllFresh(s: State, order: seq<string>)
    ensures forall id :: id in order ==> Fresh(SpawnAll(s, order), id)
  {
    if order != [] {
      var n := |order| - 1;
      var mid := SpawnAll(s, order[..n]);
      SpawnAllFresh(s, order[..n]);
      forall id | id in order
        ensures Fresh(DoSpawn(mid, order[n]), id)
      {
        if id != order[n] {
          assert id in order[..n];
        }
      }
    }
  }

  // Boot recovery gives a table entry to exactly the rows that were ACTIVE or
  // TRAINING, leaves TERMINATED rows alone, and resets every other row.
  lemma BootRecovers(ss: seq<State>, evs: seq<Event>, cfg: Config, k: nat, order: seq<string>)
    requires IsRun(ss, evs, cfg) && k < |evs| && evs[k] == Boot(order)
    ensures var s, s' := ss[k], ss[k + 1];
            && s'.rows.Keys == s.rows.Keys
            && (forall id :: id in s'.table
                  <==> id in s.rows && (s.rows[id].life == Active || s.rows[id].life == Training))
            && (forall id :: id in s'.table ==> Fresh(s', id))
            && (forall id :: id in s.rows ==>
                  s'.rows[id]
                  == if s.rows[id].life == Terminated then s.rows[id] else Row(Created, 0, s.rows[id].restarts))
  {
    Reachable(ss, evs, cfg, k);
    var mid := ss[k].(up := true, rows := MarkStale(ss[k].rows));
    assert forall id :: id in order <==> id in Recoverable(ss[k].rows);
    SpawnAllRows(mid, order);
    SpawnAllFresh(mid, order);
  }

  // --------------------------------------------------------------------------
  // Memory and registry
  // --------------------------------------------------------------------------

  // After a heartbeat the entry is ACTIVE in memory; its row is exactly if this was the
  // first heartbeat of a registration or the row said so already.  In particular an
  // angel marked UNSTABLE stays UNSTABLE in the registry.
  lemma HeartbeatRow(ss: seq<State>, evs: seq<Event>, cfg: Config, k: nat, id: string, at: int)
    requires IsRun(ss, evs, cfg) && k < |evs| && evs[k] == Heartbeat(id, at) && id in ss[k].table
    ensures Known(ss[k], id) && id in ss[k].rows
    ensures var c := ss[k].entries[ss[k].table[id]].core;
            && ss[k + 1].entries[ss[k].table[id]].core.life == Active
            && (ss[k + 1].rows[id].life == Active <==> c.life == Training || ss[k].rows[id].life == Active)
  {
    Reachable(ss, evs, cfg, k);
  }
}
