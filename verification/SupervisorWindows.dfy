// Recovery windows over whole runs of the supervisor: what opens and closes them, and
// what the function of a timer may still do after Stop came too late.
module SupervisorWindows {
  import opened Registry
  import opened Connection
  import opened SupervisorModel
  import opened SupervisorSafety
  import opened SupervisorRuns

  predicate OpensAt(s: State, ev: Event, e: nat) {
    ev.Drop? && Is(s, ev.id, e) && e in s.entries && Opens(s.entries[e].core.track)
  }

  predicate ClosesAt(s: State, ev: Event, e: nat) {
    (ev.Register? && Is(s, ev.id, e)) || ev == Restart(e) || ev.Crash?
  }

  predicate IsOpen(s: State, e: nat) { e in s.entries && s.entries[e].core.track.link == Recovering }

  predicate IsArmed(s: State, e: nat) { e in s.entries && s.entries[e].core.track.timer == Armed }

  // A window is open after a step exactly if the step opened it, or it was open and the
  // step did not close it; its timer waits unless the time is up.
  ghost predicate OpenFollows(s: State, ev: Event, e: nat, s': State) {
    && (IsOpen(s', e) <==> OpensAt(s, ev, e) || (IsOpen(s, e) && !ClosesAt(s, ev, e)))
    && (IsArmed(s', e) <==> OpensAt(s, ev, e) || (IsArmed(s, e) && !ClosesAt(s, ev, e) && ev != TimerUp(e)))
  }

  lemma OpenAfter(s: State, ev: Event, e: nat)
    requires e in s.entries && Enabled(s, ev) && CoreOk(s.entries[e].core) && !ev.Crash?
    ensures TrackAfter(s, ev, e).link == Recovering
            <==> OpensAt(s, ev, e) || (IsOpen(s, e) && !ClosesAt(s, ev, e))
    ensures TrackAfter(s, ev, e).timer == Armed
            <==> OpensAt(s, ev, e) || (IsArmed(s, e) && !ClosesAt(s, ev, e) && ev != TimerUp(e))
  {
  }

  // As seen in a state whose tracker of e is the one after the step.
  lemma OpenSeen(s: State, ev: Event, e: nat, s': State)
    requires e in s.entries && Enabled(s, ev) && CoreOk(s.entries[e].core) && !ev.Crash?
    requires e in s'.entries && s'.entries[e].core.track == TrackAfter(s, ev, e)
    ensures OpenFollows(s, ev, e, s')
  {
    OpenAfter(s, ev, e);
  }

  lemma NotOpen(s: State, ev: Event, e: nat, s': State)
    requires e !in s.entries || ev.Crash?
    requires e in s'.entries ==> s'.entries[e].core.track == Tracker(Connecting, NoTimer)
    ensures OpenFollows(s, ev, e, s')
  {
  }

  lemma OpenStep(s: State, ev: Event, e: nat, cfg: Config)
    requires Inv(s, cfg) && Enabled(s, ev)
    ensures OpenFollows(s, ev, e, Step(s, ev, cfg))
  {
    StepNew(s, ev, cfg);
    if e in s.entries && !ev.Crash? {
      assert !ev.Boot?;
      TrackMoves(s, ev, e, cfg);
      OpenSeen(s, ev, e, Step(s, ev, cfg));
    } else {
      NotOpen(s, ev, e, Step(s, ev, cfg));
    }
  }

  // The numbers a step gives out: a new window has the next number, the timer's function
  // belongs to the latest window of its entry, and a crash forgets them all.
  ghost predicate NumbersFollow(s: State, ev: Event, e: nat, n: nat, s': State) {
    && (if OpensAt(s, ev, e) then s'.nextWindow == s.nextWindow + 1 else s'.nextWindow >= s.nextWindow)
    && (e in s'.window <==> OpensAt(s, ev, e) || (e in s.window && !ev.Crash?))
    && (e in s'.window ==> s'.window[e] == if OpensAt(s, ev, e) then s.nextWindow else WindowOf(s, e))
    && (Call(e, n) in s'.calls <==>
          || (ev == TimerUp(e) && n == WindowOf(s, e))
          || (Call(e, n) in s.calls && ev != Expire(e, n) && !ev.Crash?))
  }

  ghost predicate SameNumbers(s: State, s': State) {
    s'.nextWindow == s.nextWindow && s'.window == s.window && s'.calls == s.calls
  }

  lemma EntryNumbers(s: State, ev: Event, cfg: Config)
    requires Enabled(s, ev) && OfEntry(ev) && !ev.TimerUp? && !ev.Expire?
    ensures SameNumbers(s, Step(s, ev, cfg))
  {
  }

  lemma OtherNumbers(s: State, ev: Event, cfg: Config)
    requires Enabled(s, ev) && !OfEntry(ev) && !ev.Drop? && !ev.Crash?
    ensures SameNumbers(s, Step(s, ev, cfg))
  {
    if ev.Boot? {
      SpawnAllNumbers(s.(up := true, rows := MarkStale(s.rows)), ev.order);
    }
  }

  lemma DropNumbers(s: State, id: string, e: nat, n: nat)
    requires TableOk(s)
    ensures NumbersFollow(s, Drop(id), e, n, DoDrop(s, id))
  {
  }

  lemma NumbersStep(s: State, ev: Event, e: nat, n: nat, cfg: Config)
    requires TableOk(s) && Enabled(s, ev)
    ensures NumbersFollow(s, ev, e, n, Step(s, ev, cfg))
  {
    match ev
    case Drop(id) => DropNumbers(s, id, e, n);
    case TimerUp(_) =>
    case Expire(_, _) =>
    case Crash =>
    case _ =>
      if OfEntry(ev) {
        EntryNumbers(s, ev, cfg);
      } else {
        OtherNumbers(s, ev, cfg);
      }
  }

  lemma {:induction false} SpawnAllNumbers(s: State, order: seq<string>)
    ensures var s' := SpawnAll(s, order);
            s'.nextWindow == s.nextWindow && s'.window == s.window && s'.calls == s.calls
  {
    if order != [] {
      SpawnAllNumbers(s, order[..|order| - 1]);
    }
  }

  // --------------------------------------------------------------------------
  // What a run does to the windows of one entry
  // --------------------------------------------------------------------------

  ghost predicate Moves(s: State, ev: Event, e: nat, n: nat, s': State) {
    && OpenFollows(s, ev, e, s') && NumbersFollow(s, ev, e, n, s')
    && (OpensAt(s, ev, e) ==> !IsOpen(s, e) && !ClosesAt(s, ev, e))
    && (ev == TimerUp(e) ==> IsArmed(s, e))
    && (ev == Expire(e, n) ==> Call(e, n) in s.calls)
  }

  ghost predicate Traced(ss: seq<State>, evs: seq<Event>, e: nat, n: nat) {
    && |ss| == |evs| + 1
    && !IsOpen(ss[0], e) && !IsArmed(ss[0], e) && e !in ss[0].window && Call(e, n) !in ss[0].calls
    && forall k :: 0 <= k < |evs| ==> Moves(ss[k], evs[k], e, n, ss[k + 1])
  }

  lemma StepMoves(s: State, ev: Event, e: nat, n: nat, cfg: Config)
    requires Inv(s, cfg) && Enabled(s, ev)
    ensures Moves(s, ev, e, n, Step(s, ev, cfg))
  {
    OpenStep(s, ev, e, cfg);
    NumbersStep(s, ev, e, n, cfg);
  }

  lemma Trace(ss: seq<State>, evs: seq<Event>, cfg: Config, e: nat, n: nat)
    requires IsRun(ss, evs, cfg)
    ensures Traced(ss, evs, e, n)
  {
    forall k | 0 <= k < |evs|
      ensures Moves(ss[k], evs[k], e, n, ss[k + 1])
    {
      Reachable(ss, evs, cfg, k);
      StepMoves(ss[k], evs[k], e, n, cfg);
    }
  }

  // Windows are numbered as they open, an entry with an open window has a number, and no
  // function was started for a window whose timer still waits.
  ghost predicate NumbersOk(s: State, e: nat, n: nat) {
    && (e in s.window ==> s.window[e] < s.nextWindow)
    && (IsOpen(s, e) || IsArmed(s, e) ==> e in s.window)
    && (Call(e, n) in s.calls ==> e in s.window && n <= s.window[e] && !(IsArmed(s, e) && s.window[e] == n))
  }

  lemma {:induction false} Numbered(ss: seq<State>, evs: seq<Event>, k: nat, e: nat, n: nat)
    requires Traced(ss, evs, e, n) && k <= |evs|
    ensures NumbersOk(ss[k], e, n)
  {
    if k > 0 {
      Numbered(ss, evs, k - 1, e, n);
      assert Moves(ss[k - 1], evs[k - 1], e, n, ss[k - 1 + 1]);
    }
  }

  // Between steps j and k nothing closes a window of e.
  ghost predicate StaysOpen(ss: seq<State>, evs: seq<Event>, j: nat, k: nat, e: nat)
    requires k <= |evs| && k <= |ss|
  {
    forall m :: j < m < k ==> !ClosesAt(ss[m], evs[m], e)
  }

  // Step j opens window n of e.
  ghost predicate OpensWindow(ss: seq<State>, evs: seq<Event>, j: nat, e: nat, n: nat) {
    j < |evs| && j < |ss| && OpensAt(ss[j], evs[j], e) && ss[j].nextWindow == n
  }

  lemma {:induction false} WaitingSince(ss: seq<State>, evs: seq<Event>, k: nat, e: nat, n: nat) returns (j: nat)
    requires Traced(ss, evs, e, n) && k <= |evs| && IsArmed(ss[k], e)
    ensures j < k && OpensWindow(ss, evs, j, e, WindowOf(ss[k], e)) && StaysOpen(ss, evs, j, k, e)
    ensures forall m :: j < m < k ==> evs[m] != TimerUp(e)
  {
    assert k > 0;
    j := k - 1;
    assert Moves(ss[j], evs[j], e, n, ss[j + 1]);
    Numbered(ss, evs, j, e, n);
    if !OpensAt(ss[j], evs[j], e) {
      j := WaitingSince(ss, evs, j, e, n);
    }
  }

  // Every open window goes back to a drop after which nothing closed it ...
  lemma {:induction false} OpenSince(ss: seq<State>, evs: seq<Event>, k: nat, e: nat, n: nat) returns (j: nat)
    requires Traced(ss, evs, e, n) && k <= |evs| && IsOpen(ss[k], e)
    ensures j < k && OpensWindow(ss, evs, j, e, WindowOf(ss[k], e)) && StaysOpen(ss, evs, j, k, e)
  {
    assert k > 0;
    j := k - 1;
    assert Moves(ss[j], evs[j], e, n, ss[j + 1]);
    Numbered(ss, evs, j, e, n);
    if !OpensAt(ss[j], evs[j], e) {
      j := OpenSince(ss, evs, j, e, n);
    }
  }

  // ... and a window that nothing closes is open, and is the latest.
  lemma {:induction false} StillOpen(ss: seq<State>, evs: seq<Event>, j: nat, k: nat, e: nat, n: nat)
    requires Traced(ss, evs, e, n) && j < k <= |evs| && OpensAt(ss[j], evs[j], e) && StaysOpen(ss, evs, j, k, e)
    ensures IsOpen(ss[k], e) && e in ss[k].window && ss[k].window[e] == ss[j].nextWindow
    decreases k
  {
    assert Moves(ss[k - 1], evs[k - 1], e, n, ss[k - 1 + 1]);
    if j < k - 1 {
      StillOpen(ss, evs, j, k - 1, e, n);
    }
  }

  // Numbers are given out once.
  lemma {:induction false} NumbersGrow(ss: seq<State>, evs: seq<Event>, j: nat, k: nat, e: nat, n: nat)
    requires Traced(ss, evs, e, n) && j <= k <= |evs|
    ensures ss[j].nextWindow <= ss[k].nextWindow
    decreases k
  {
    if j < k {
      NumbersGrow(ss, evs, j, k - 1, e, n);
      assert Moves(ss[k - 1], evs[k - 1], e, n, ss[k - 1 + 1]);
    }
  }

  lemma LaterNumber(ss: seq<State>, evs: seq<Event>, j: nat, l: nat, e: nat, n: nat)
    requires Traced(ss, evs, e, n) && j < l <= |evs| && OpensAt(ss[j], evs[j], e)
    ensures ss[j].nextWindow < ss[l].nextWindow
  {
    assert Moves(ss[j], evs[j], e, n, ss[j + 1]);
    NumbersGrow(ss, evs, j + 1, l, e, n);
  }

  // Every function that waits to be run was started when the time of its window was up,
  // before which nothing had closed the window.
  lemma {:induction false} CallSince(ss: seq<State>, evs: seq<Event>, k: nat, e: nat, n: nat) returns (j: nat, i: nat)
    requires Traced(ss, evs, e, n) && k <= |evs| && Call(e, n) in ss[k].calls
    ensures j < i < k && OpensWindow(ss, evs, j, e, n) && evs[i] == TimerUp(e) && StaysOpen(ss, evs, j, i, e)
  {
    assert k > 0;
    i := k - 1;
    assert Moves(ss[i], evs[i], e, n, ss[i + 1]);
    if Call(e, n) in ss[i].calls {
      j, i := CallSince(ss, evs, i, e, n);
    } else {
      j := WaitingSince(ss, evs, i, e, n);
    }
  }

  // Once the function of window n has been run it is not started again.
  lemma {:induction false} StaysSpent(ss: seq<State>, evs: seq<Event>, k: nat, m: nat, e: nat, n: nat)
    requires Traced(ss, evs, e, n) && k < m <= |evs| && evs[k] == Expire(e, n)
    ensures n < ss[m].nextWindow && Call(e, n) !in ss[m].calls && !(IsArmed(ss[m], e) && WindowOf(ss[m], e) == n)
    decreases m
  {
    assert Moves(ss[m - 1], evs[m - 1], e, n, ss[m - 1 + 1]);
    Numbered(ss, evs, m - 1, e, n);
    if k < m - 1 {
      StaysSpent(ss, evs, k, m - 1, e, n);
    }
  }

  // --------------------------------------------------------------------------
  // The theorems
  // --------------------------------------------------------------------------

  // Every pending timer goes back to a drop after which nothing closed the window and
  // the timer did not fire.
  lemma ArmedSince(ss: seq<State>, evs: seq<Event>, cfg: Config, k: nat, e: nat) returns (j: nat)
    requires IsRun(ss, evs, cfg) && k <= |evs| && IsArmed(ss[k], e)
    ensures j < k && OpensWindow(ss, evs, j, e, WindowOf(ss[k], e)) && StaysOpen(ss, evs, j, k, e)
    ensures forall m :: j < m < k ==> evs[m] != TimerUp(e)
  {
    Trace(ss, evs, cfg, e, 0);
    j := WaitingSince(ss, evs, k, e, 0);
  }

  // Step k runs the function of window n of e, which step j opened and whose timer fired
  // at step i; till then nothing had closed the window.
  ghost predicate Expiry(ss: seq<State>, evs: seq<Event>, j: nat, i: nat, k: nat, e: nat, n: nat) {
    && j < i < k < |evs| && k < |ss| && evs[k] == Expire(e, n)
    && OpensWindow(ss, evs, j, e, n) && evs[i] == TimerUp(e) && StaysOpen(ss, evs, j, i, e)
  }

  // Every run of a timer's function is the only one for its window.
  lemma ExpiresOnce(ss: seq<State>, evs: seq<Event>, cfg: Config, k: nat, e: nat, n: nat) returns (j: nat, i: nat)
    requires IsRun(ss, evs, cfg) && k < |evs| && evs[k] == Expire(e, n)
    ensures Expiry(ss, evs, j, i, k, e, n)
    ensures forall m :: 0 <= m < |evs| && evs[m] == Expire(e, n) ==> m == k
  {
    Trace(ss, evs, cfg, e, n);
    assert Moves(ss[k], evs[k], e, n, ss[k + 1]);
    j, i := CallSince(ss, evs, k, e, n);
    forall m | 0 <= m < |evs| && evs[m] == Expire(e, n)
      ensures m == k
    {
      assert Moves(ss[m], evs[m], e, n, ss[m + 1]);
      if k < m {
        StaysSpent(ss, evs, k, m, e, n);
      } else if m < k {
        StaysSpent(ss, evs, m, k, e, n);
      }
    }
  }

  // The function finds its own window open exactly if nothing has closed it.  It finds
  // another one open exactly if that one was opened after the timer fired, so that its
  // own was closed in between.
  lemma ExpiryActs(ss: seq<State>, evs: seq<Event>, cfg: Config, j: nat, i: nat, k: nat, e: nat, n: nat)
    requires IsRun(ss, evs, cfg) && Expiry(ss, evs, j, i, k, e, n)
    ensures IsOpen(ss[k], e) && WindowOf(ss[k], e) == n <==> StaysOpen(ss, evs, j, k, e)
    ensures IsOpen(ss[k], e) && WindowOf(ss[k], e) != n
            <==> exists l :: i < l < k && OpensAt(ss[l], evs[l], e) && StaysOpen(ss, evs, l, k, e)
  {
    Trace(ss, evs, cfg, e, n);
    if StaysOpen(ss, evs, j, k, e) {
      StillOpen(ss, evs, j, k, e, n);
    }
    if IsOpen(ss[k], e) {
      var l := OpenSince(ss, evs, k, e, n);
      OneOpening(ss, evs, j, l, e, n);
      if l != j {
        OpeningsApart(ss, evs, j, i, l, k, e, n);
      }
    }
    forall l | i < l < k && OpensAt(ss[l], evs[l], e) && StaysOpen(ss, evs, l, k, e)
      ensures IsOpen(ss[k], e) && WindowOf(ss[k], e) != n
    {
      StillOpen(ss, evs, l, k, e, n);
      LaterNumber(ss, evs, j, l, e, n);
    }
  }

  lemma OneOpening(ss: seq<State>, evs: seq<Event>, j: nat, l: nat, e: nat, n: nat)
    requires Traced(ss, evs, e, n) && OpensWindow(ss, evs, j, e, n) && l < |evs| && OpensAt(ss[l], evs[l], e)
    ensures j == l <==> ss[l].nextWindow == n
  {
    if j < l {
      LaterNumber(ss, evs, j, l, e, n);
    } else if l < j {
      LaterNumber(ss, evs, l, j, e, n);
    }
  }

  // While a window is open no other opens, so two openings have a closing between them.
  lemma OpeningsApart(ss: seq<State>, evs: seq<Event>, j: nat, i: nat, l: nat, k: nat, e: nat, n: nat)
    requires Traced(ss, evs, e, n) && Expiry(ss, evs, j, i, k, e, n)
    requires l < k && l != j && OpensAt(ss[l], evs[l], e) && StaysOpen(ss, evs, l, k, e)
    ensures i < l
  {
    if l < j {
      StillOpen(ss, evs, l, j, e, n);
    } else if l <= i {
      StillOpen(ss, evs, j, l, e, n);
    }
  }
}
