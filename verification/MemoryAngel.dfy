// internal/angels/memory/memory.go: threshold checks with a per-process cooldown, and
// the poll cycle around them.
module MemoryAngel {
  import opened Option
  import opened Digits
  import opened RssWindow

  // A threshold of 0 disables its rule; WindowSize is at least 2 after config reading.
  datatype Config = Config(windowSize: nat, absWarnMB: nat, absCritMB: nat,
                           growthWarnPct: real, growthCritPct: real,
                           rateWarnKBps: real, rateCritKBps: real,
                           cooldown: int, cgroup: bool)

  // The rule an emitted event names.
  datatype Rule = AbsCrit | AbsWarn | GrowthCrit | GrowthWarn | RateCrit | RateWarn

  function RateRules(cfg: Config, rate: real): seq<Rule> {
    if rate <= 0.0 then []
    else if cfg.rateCritKBps > 0.0 && rate >= cfg.rateCritKBps then [RateCrit]
    else if cfg.rateWarnKBps > 0.0 && rate >= cfg.rateWarnKBps then [RateWarn]
    else []
  }

  // The events one check of a process out of cooldown emits.
  function Rules(cfg: Config, full: bool, pct: real, rate: real, rssKB: nat): seq<Rule> {
    var rssMB := rssKB / 1024;
    if cfg.absCritMB > 0 && rssMB >= cfg.absCritMB then [AbsCrit]
    else if cfg.absWarnMB > 0 && rssMB >= cfg.absWarnMB then [AbsWarn]
    else if !full || pct <= 0.0 then []
    else if cfg.growthCritPct > 0.0 && pct >= cfg.growthCritPct then [GrowthCrit] + RateRules(cfg, rate)
    else if cfg.growthWarnPct > 0.0 && pct >= cfg.growthWarnPct then [GrowthWarn]
    else RateRules(cfg, rate)
  }

  function WindowRules(cfg: Config, s: seq<Sample>, rssKB: nat): seq<Rule> {
    Rules(cfg, |s| == cfg.windowSize, Pct(s, cfg.windowSize), Rate(s, cfg.windowSize), rssKB)
  }

  // A check emits at most two events, and two exactly when a critical growth below
  // the absolute limits comes with a rate over a threshold: the comment that a fast
  // and large leak is reported once holds for warning growth only.
  lemma EventsPerCheck(cfg: Config, s: seq<Sample>, rssKB: nat)
    ensures |WindowRules(cfg, s, rssKB)| <= 2
    ensures |WindowRules(cfg, s, rssKB)| == 2
            <==> && !(cfg.absCritMB > 0 && rssKB / 1024 >= cfg.absCritMB)
                 && !(cfg.absWarnMB > 0 && rssKB / 1024 >= cfg.absWarnMB)
                 && |s| == cfg.windowSize
                 && cfg.growthCritPct > 0.0 && Pct(s, cfg.windowSize) >= cfg.growthCritPct
                 && RateRules(cfg, Rate(s, cfg.windowSize)) != []
  {
  }

  // When each rule is named.  An absolute limit silences all others, and a growth
  // warning the rate.
  lemma RulesNamed(cfg: Config, s: seq<Sample>, rssKB: nat)
    requires cfg.windowSize >= 1
    ensures var rules, pct, rate := WindowRules(cfg, s, rssKB), Pct(s, cfg.windowSize), Rate(s, cfg.windowSize);
            var absCrit := cfg.absCritMB > 0 && rssKB / 1024 >= cfg.absCritMB;
            var absWarn := !absCrit && cfg.absWarnMB > 0 && rssKB / 1024 >= cfg.absWarnMB;
            var full := !absCrit && !absWarn && |s| == cfg.windowSize;
            var growthCrit := full && cfg.growthCritPct > 0.0 && pct >= cfg.growthCritPct;
            var growthWarn := full && !growthCrit && cfg.growthWarnPct > 0.0 && pct >= cfg.growthWarnPct;
            var rated := full && pct > 0.0 && !growthWarn && rate > 0.0;
            var rateCrit := rated && cfg.rateCritKBps > 0.0 && rate >= cfg.rateCritKBps;
            && (AbsCrit in rules <==> absCrit) && (AbsWarn in rules <==> absWarn)
            && (GrowthCrit in rules <==> growthCrit) && (GrowthWarn in rules <==> growthWarn)
            && (RateCrit in rules <==> rateCrit)
            && (RateWarn in rules <==> rated && !rateCrit && cfg.rateWarnKBps > 0.0 && rate >= cfg.rateWarnKBps)
  {
  }

  // It does happen: 100 KB growing to 200 KB within a second, at a 50 percent limit and
  // 10 KB per second.
  lemma TwoEvents()
    ensures var cfg := Config(2, 0, 0, 0.0, 50.0, 0.0, 10.0, 0, false);
            WindowRules(cfg, [Sample(0, 100), Sample(1000000000, 200)], 200) == [GrowthCrit, RateCrit]
  {
    DivModUnique(100, 0, 100, MAX_UINT64 + 1);
    var s := [Sample(0, 100), Sample(1000000000, 200)];
    assert Pct(s, 2) == 100.0;
    assert Rate(s, 2) == 100.0;
  }

  // A process whose window shrank still raises a growth event: the comment "shrinking
  // or flat" describes flat windows only.
  lemma ShrinkingAlerts(cfg: Config, s: seq<Sample>, rssKB: nat)
    requires 1 <= cfg.windowSize == |s|
    requires s[|s| - 1].rssKB < s[0].rssKB <= 0x4000_0000_0000_0000
    requires 0.0 < cfg.growthCritPct <= 200.0
    requires cfg.absCritMB == 0 || rssKB / 1024 < cfg.absCritMB
    requires cfg.absWarnMB == 0 || rssKB / 1024 < cfg.absWarnMB
    ensures WindowRules(cfg, s, rssKB) == [GrowthCrit]
  {
    ShrinkingLooksLikeGrowth(s, cfg.windowSize);
  }

  // --------------------------------------------------------------------------
  // Runs
  // --------------------------------------------------------------------------

  datatype Pid = Pid(number: nat)

  // One completed check, one process dropped from the target set, or one cgroup alert.
  datatype Event = Checked(pid: Pid, at: int, rules: seq<Rule>) | Forgotten(pid: Pid) | OomAlert

  // The number of alert events a run emitted.
  function Emitted(log: seq<Event>): nat {
    if log == [] then 0
    else Emitted(log[..|log| - 1]) + (match log[|log| - 1]
                                      case Checked(_, _, rules) => |rules|
                                      case Forgotten(_) => 0
                                      case OomAlert => 1)
  }

  // When the process last alerted, unless it was forgotten since.
  function LastAlert(log: seq<Event>, pid: Pid): Option<int> {
    if log == [] then None
    else
      var before := LastAlert(log[..|log| - 1], pid);
      match log[|log| - 1]
      case Checked(p, at, rules) => if p == pid && rules != [] then Some(at) else before
      case Forgotten(p) => if p == pid then None else before
      case OomAlert => before
  }

  function Clock(log: seq<Event>, start: int): int {
    if log == [] then start
    else match log[|log| - 1]
         case Checked(_, at, _) => at
         case _ => Clock(log[..|log| - 1], start)
  }

  // Checks happen at non-decreasing times and alert only out of cooldown.
  ghost predicate Disciplined(log: seq<Event>, cooldown: int, start: int) {
    forall i :: 0 <= i < |log| && log[i].Checked? ==>
      && Clock(log[..i], start) <= log[i].at
      && (log[i].rules != [] ==>
            var last := LastAlert(log[..i], log[i].pid);
            last.None? || log[i].at - last.value >= cooldown)
  }

  lemma Extends(log: seq<Event>, e: Event, cooldown: int, start: int)
    requires Disciplined(log, cooldown, start)
    requires e.Checked? ==>
               && Clock(log, start) <= e.at
               && (e.rules != [] ==>
                     LastAlert(log, e.pid).None? || e.at - LastAlert(log, e.pid).value >= cooldown)
    ensures Disciplined(log + [e], cooldown, start) && (log + [e])[..|log|] == log
  {
    var log' := log + [e];
    assert log'[..|log|] == log;
    assert forall i :: 0 <= i < |log| ==> log'[..i] == log[..i];
  }

  // The cooldown map and the counter say what the run says.
  ghost predicate Booked(log: seq<Event>, alerted: map<Pid, int>, total: nat) {
    && (forall p :: p in alerted <==> LastAlert(log, p).Some?)
    && (forall p :: p in alerted ==> alerted[p] == LastAlert(log, p).value)
    && total == Emitted(log)
  }

  lemma CheckBooked(log: seq<Event>, alerted: map<Pid, int>, total: nat, pid: Pid, now: int, rules: seq<Rule>)
    requires Booked(log, alerted, total)
    ensures Booked(log + [Checked(pid, now, rules)],
                   if rules != [] then alerted[pid := now] else alerted, total + |rules|)
  {
    assert (log + [Checked(pid, now, rules)])[..|log|] == log;
  }

  lemma ForgetBooked(log: seq<Event>, alerted: map<Pid, int>, total: nat, pid: Pid)
    requires Booked(log, alerted, total)
    ensures Booked(log + [Forgotten(pid)], alerted - {pid}, total)
  {
    assert (log + [Forgotten(pid)])[..|log|] == log;
  }

  lemma OomBooked(log: seq<Event>, alerted: map<Pid, int>, total: nat)
    requires Booked(log, alerted, total)
    ensures Booked(log + [OomAlert], alerted, total + 1)
  {
    assert (log + [OomAlert])[..|log|] == log;
  }

  // Since an alert of pid nothing has forgotten it, so a last alert is on record and
  // is not older.
  lemma {:induction false} AlertOnRecord(log: seq<Event>, cooldown: int, start: int, i: nat, j: nat)
    requires Disciplined(log, cooldown, start) && i < j <= |log|
    requires log[i].Checked? && log[i].rules != []
    requires forall m :: i < m < j ==> log[m] != Forgotten(log[i].pid)
    ensures LastAlert(log[..j], log[i].pid).Some?
    ensures log[i].at <= LastAlert(log[..j], log[i].pid).value
    ensures log[i].at <= Clock(log[..j], start)
    decreases j
  {
    assert log[..j] == log[..j - 1] + [log[j - 1]] && log[..j][..j - 1] == log[..j - 1];
    if i < j - 1 {
      AlertOnRecord(log, cooldown, start, i, j - 1);
    }
  }

  // Two alerting checks of one process are at least the cooldown apart, unless the
  // process left the target set in between.
  lemma CooldownHolds(log: seq<Event>, cooldown: int, start: int, i: nat, j: nat)
    requires Disciplined(log, cooldown, start) && i < j < |log|
    requires log[i].Checked? && log[j].Checked? && log[i].pid == log[j].pid
    requires log[i].rules != [] && log[j].rules != []
    ensures log[j].at - log[i].at >= cooldown || exists m :: i < m < j && log[m] == Forgotten(log[i].pid)
  {
    if forall m :: i < m < j ==> log[m] != Forgotten(log[i].pid) {
      AlertOnRecord(log, cooldown, start, i, j);
    }
  }

  // --------------------------------------------------------------------------
  // The angel
  // --------------------------------------------------------------------------

  // One target process as a poll finds it: its RSS, or gone.
  datatype Reading = Reading(pid: Pid, rssKB: Option<nat>, at: int)

  // What one reading does to the sample lists.
  function Sampled(windows: map<Pid, seq<Sample>>, r: Reading, cap: nat): map<Pid, seq<Sample>> {
    if r.rssKB.None? then windows - {r.pid}
    else
      var w := if r.pid in windows then windows[r.pid] else [];
      windows[r.pid := LastOf(w + [Sample(r.at, r.rssKB.value)], cap)]
  }

  // The process has a window exactly if it was found, with its new sample last and the
  // oldest gone if the window was full; no other window changes.
  lemma SampledMeans(windows: map<Pid, seq<Sample>>, r: Reading, cap: nat)
    ensures var windows' := Sampled(windows, r, cap);
            && (forall p :: p != r.pid ==>
                  (p in windows' <==> p in windows) && (p in windows' ==> windows'[p] == windows[p]))
            && (r.pid in windows' <==> r.rssKB.Some?)
            && (r.rssKB.Some? ==>
                  var was := (if r.pid in windows then windows[r.pid] else []) + [Sample(r.at, r.rssKB.value)];
                  windows'[r.pid] == if |was| < cap then was else was[|was| - cap..])
  {
  }

  function SampledAll(windows: map<Pid, seq<Sample>>, readings: seq<Reading>, cap: nat): map<Pid, seq<Sample>> {
    if readings == [] then windows
    else Sampled(SampledAll(windows, readings[..|readings| - 1], cap), readings[|readings| - 1], cap)
  }

  lemma SampledStep(windows: map<Pid, seq<Sample>>, readings: seq<Reading>, i: nat, cap: nat)
    requires i < |readings|
    ensures SampledAll(windows, readings[..i + 1], cap)
            == Sampled(SampledAll(windows, readings[..i], cap), readings[i], cap)
  {
    assert readings[..i + 1][..i] == readings[..i];
  }

  // What checkThresholds emits for a process: nothing within the cooldown of the last
  // alert on record, otherwise the events of the rules.
  function RulesFor(cfg: Config, log: seq<Event>, pid: Pid, w: seq<Sample>, rssKB: nat, now: int): seq<Rule> {
    var last := LastAlert(log, pid);
    if last.Some? && now - last.value < cfg.cooldown then [] else WindowRules(cfg, w, rssKB)
  }

  // What one reading adds to the run, given the sample lists before it.
  function CheckOf(cfg: Config, log: seq<Event>, windows: map<Pid, seq<Sample>>, r: Reading): seq<Event> {
    if r.rssKB.None? then []
    else
      var w := Sampled(windows, r, cfg.windowSize)[r.pid];
      [Checked(r.pid, r.at, RulesFor(cfg, log, r.pid, w, r.rssKB.value, r.at))]
  }

  // The checks of a poll that starts after the given run: each live process is judged by
  // its window and by the alerts up to that moment.
  function ChecksOf(cfg: Config, log: seq<Event>, windows: map<Pid, seq<Sample>>, readings: seq<Reading>): seq<Event> {
    if readings == [] then []
    else
      var n := |readings| - 1;
      var before := ChecksOf(cfg, log, windows, readings[..n]);
      before + CheckOf(cfg, log + before, SampledAll(windows, readings[..n], cfg.windowSize), readings[n])
  }

  lemma ChecksStep(cfg: Config, log: seq<Event>, windows: map<Pid, seq<Sample>>, readings: seq<Reading>, i: nat)
    requires i < |readings|
    ensures var before := log + ChecksOf(cfg, log, windows, readings[..i]);
            log + ChecksOf(cfg, log, windows, readings[..i + 1])
            == before + CheckOf(cfg, before, SampledAll(windows, readings[..i], cfg.windowSize), readings[i])
  {
    assert readings[..i + 1][..i] == readings[..i];
  }

  predicate Chronological(readings: seq<Reading>) {
    forall i, j :: 0 <= i < j < |readings| ==> readings[i].at <= readings[j].at
  }

  class MemoryAngel {
    const cfg: Config
    var windows: map<Pid, seq<Sample>>   // per process, the list its rssWindow holds
    var alerted: map<Pid, int>
    var totalAlerts: nat
    var lastOOMKills: nat
    ghost const start: int
    ghost var log: seq<Event>

    // The in-memory bookkeeping agrees with the run.
    ghost predicate Valid()
      reads this
    {
      && cfg.windowSize >= 1
      && Disciplined(log, cfg.cooldown, start)
      && Booked(log, alerted, totalAlerts)
    }

    constructor (cfg: Config, now: int)
      requires cfg.windowSize >= 1
      ensures Valid() && log == [] && windows == map[] && this.cfg == cfg && start == now
    {
      this.cfg := cfg;
      windows, alerted, totalAlerts, lastOOMKills := map[], map[], 0, 0;
      start, log := now, [];
    }

    predicate CoolingDown(pid: Pid, now: int)
      reads this
    {
      pid in alerted && now - alerted[pid] < cfg.cooldown
    }

    // checkThresholds: silent in cooldown, otherwise the events of the rules.
    method CheckThresholds(pid: Pid, rssKB: nat, now: int) returns (rules: seq<Rule>)
      requires Valid() && pid in windows && Clock(log, start) <= now
      modifies `alerted, `totalAlerts, `log
      ensures Valid() && log == old(log) + [Checked(pid, now, rules)]
      ensures rules == RulesFor(cfg, old(log), pid, windows[pid], rssKB, now)
      ensures rules == if pid in old(alerted) && now - old(alerted)[pid] < cfg.cooldown then []
                       else WindowRules(cfg, windows[pid], rssKB)
      ensures totalAlerts == old(totalAlerts) + |rules|
      ensures alerted == if rules == [] then old(alerted) else old(alerted)[pid := now]
      ensures Clock(log, start) == now
    {
      rules := [];
      if !CoolingDown(pid, now) {
        rules := Decide(windows[pid], rssKB);
      }
      Note(pid, rules, now);
    }

    // m.alerted[pid] = now and m.totalAlerts++ for each event.
    method Note(pid: Pid, rules: seq<Rule>, now: int)
      requires Valid() && Clock(log, start) <= now
      requires rules != [] ==> !CoolingDown(pid, now)
      modifies `alerted, `totalAlerts, `log
      ensures Valid() && log == old(log) + [Checked(pid, now, rules)] && Clock(log, start) == now
      ensures totalAlerts == old(totalAlerts) + |rules|
      ensures alerted == if rules == [] then old(alerted) else old(alerted)[pid := now]
    {
      Extends(log, Checked(pid, now, rules), cfg.cooldown, start);
      CheckBooked(log, alerted, totalAlerts, pid, now, rules);
      if rules != [] {
        alerted := alerted[pid := now];
        totalAlerts := totalAlerts + |rules|;
      }
      log := log + [Checked(pid, now, rules)];
    }

    // The rule cascade of checkThresholds.
    method Decide(w: seq<Sample>, rssKB: nat) returns (rules: seq<Rule>)
      ensures rules == WindowRules(cfg, w, rssKB)
    {
      var rssMB := rssKB / 1024;
      if cfg.absCritMB > 0 && rssMB >= cfg.absCritMB {
        return [AbsCrit];
      }
      if cfg.absWarnMB > 0 && rssMB >= cfg.absWarnMB {
        return [AbsWarn];
      }
      if |w| != cfg.windowSize {
        return [];
      }
      var growth := Pct(w, cfg.windowSize);
      if growth <= 0.0 {
        return [];
      }
      rules := [];
      if cfg.growthCritPct > 0.0 && growth >= cfg.growthCritPct {
        rules := [GrowthCrit];
      } else if cfg.growthWarnPct > 0.0 && growth >= cfg.growthWarnPct {
        return [GrowthWarn];
      }
      var rate := Rate(w, cfg.windowSize);
      if rate > 0.0 {
        if cfg.rateCritKBps > 0.0 && rate >= cfg.rateCritKBps {
          rules := rules + [RateCrit];
        } else if cfg.rateWarnKBps > 0.0 && rate >= cfg.rateWarnKBps {
          rules := rules + [RateWarn];
        }
      }
    }

    // One poll over the resolved targets; kills is the cgroup's OOM counter if it
    // could be read.  Afterwards exactly the targets that could be read have a
    // window; the run grew by one check per readable target, then by one entry for
    // each windowed process outside the target set, then by the cgroup alert if any.
    method Poll(readings: seq<Reading>, kills: Option<nat>) returns (ghost gone: seq<Event>)
      requires Valid() && Chronological(readings)
      requires readings != [] ==> Clock(log, start) <= readings[0].at
      modifies this
      ensures Valid()
      ensures var sampled := SampledAll(old(windows), readings, cfg.windowSize);
              var targets := set r | r in readings :: r.pid;
              && windows == (map p | p in sampled && p in targets :: sampled[p])
              && (forall e :: e in gone <==> e.Forgotten? && e.pid in sampled && e.pid !in targets)
      ensures log == old(log) + ChecksOf(cfg, old(log), old(windows), readings) + gone
                     + if cfg.cgroup && kills.Some? && kills.value > old(lastOOMKills) then [OomAlert] else []
      ensures lastOOMKills == if cfg.cgroup && kills.Some? then kills.value else old(lastOOMKills)
    {
      VisitAll(readings);
      var pidSet := set r | r in readings :: r.pid;
      gone := Prune(pidSet);
      if cfg.cgroup && kills.Some? {
        CheckCgroup(kills.value);
      }
    }

    // The loop over the targets.
    method VisitAll(readings: seq<Reading>)
      requires Valid() && Chronological(readings)
      requires readings != [] ==> Clock(log, start) <= readings[0].at
      modifies `windows, `alerted, `totalAlerts, `log
      ensures Valid() && log == old(log) + ChecksOf(cfg, old(log), old(windows), readings)
      ensures windows == SampledAll(old(windows), readings, cfg.windowSize)
    {
      ghost var was, found := log, windows;
      assert readings[..0] == [];
      for i := 0 to |readings|
        invariant Valid() && log == was + ChecksOf(cfg, was, found, readings[..i])
        invariant windows == SampledAll(found, readings[..i], cfg.windowSize)
        invariant i < |readings| ==> Clock(log, start) <= readings[i].at
      {
        Visit(readings[i]);
        SampledStep(found, readings, i, cfg.windowSize);
        ChecksStep(cfg, was, found, readings, i);
      }
      assert readings[..|readings|] == readings;
    }

    // The body of the loop.
    method Visit(r: Reading)
      requires Valid() && Clock(log, start) <= r.at
      modifies `windows, `alerted, `totalAlerts, `log
      ensures Valid() && windows == Sampled(old(windows), r, cfg.windowSize) && Clock(log, start) <= r.at
      ensures log == old(log) + CheckOf(cfg, old(log), old(windows), r)
    {
      windows := Sampled(windows, r, cfg.windowSize);
      if r.rssKB.Some? {
        var rules := CheckThresholds(r.pid, r.rssKB.value, r.at);
      }
    }

    // Prune windows for PIDs no longer in the target set.
    method Prune(pidSet: set<Pid>) returns (ghost gone: seq<Event>)
      requires Valid()
      modifies `windows, `alerted, `log
      ensures Valid() && log == old(log) + gone
      ensures windows == map p | p in old(windows) && p in pidSet :: old(windows)[p]
      ensures forall e :: e in gone <==> e.Forgotten? && e.pid in old(windows) && e.pid !in pidSet
      ensures forall p :: p in alerted <==> p in old(alerted) && (p in pidSet || p !in old(windows))
      ensures forall p :: p in alerted ==> alerted[p] == old(alerted)[p]
    {
      gone := [];
      var pids := windows.Keys;
      while pids != {}
        invariant Valid() && log == old(log) + gone && pids <= windows.Keys <= old(windows).Keys
        invariant forall p :: p in old(windows) ==> (p in windows <==> p in pidSet || p in pids)
        invariant forall p :: p in windows ==> windows[p] == old(windows)[p]
        invariant forall e :: e in gone
                    <==> e.Forgotten? && e.pid in old(windows) && e.pid !in pidSet && e.pid !in pids
        invariant forall p :: p in alerted <==> p in old(alerted) && (p in pidSet || p in pids || p !in old(windows))
        invariant forall p :: p in alerted ==> alerted[p] == old(alerted)[p]
        decreases pids
      {
        var pid :| pid in pids;
        if pid !in pidSet {
          windows := windows - {pid};
          Forget(pid);
          gone := gone + [Forgotten(pid)];
        }
        pids := pids - {pid};
      }
    }

    method Forget(pid: Pid)
      requires Valid()
      modifies `alerted, `log
      ensures Valid() && log == old(log) + [Forgotten(pid)] && alerted == old(alerted) - {pid}
    {
      ForgetBooked(log, alerted, totalAlerts, pid);
      alerted := alerted - {pid};
      Extends(log, Forgotten(pid), cfg.cooldown, start);
      log := log + [Forgotten(pid)];
    }

    method CheckCgroup(kills: nat)
      requires Valid()
      modifies `totalAlerts, `lastOOMKills, `log
      ensures Valid() && lastOOMKills == kills
      ensures totalAlerts == old(totalAlerts) + if kills > old(lastOOMKills) then 1 else 0
      ensures log == if kills > old(lastOOMKills) then old(log) + [OomAlert] else old(log)
    {
      if kills > lastOOMKills {
        Extends(log, OomAlert, cfg.cooldown, start);
        OomBooked(log, alerted, totalAlerts);
        totalAlerts := totalAlerts + 1;
        log := log + [OomAlert];
      }
      lastOOMKills := kills;
    }
  }
}
