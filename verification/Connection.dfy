// internal/lab/connection.go: the IPC link of one angel and its recovery timer.
module Connection {

  datatype Link = Disconnected | Connecting | Registered | LinkActive | Lost | Recovering

  // recoveryTimer: nil, waiting to fire, or fired, its function having been started.
  datatype Timer = NoTimer | Armed | Fired

  datatype Tracker = Tracker(link: Link, timer: Timer)

  const UNUSED := Tracker(Disconnected, NoTimer)

  // The transition table.
  function Allowed(old_: Link): set<Link> {
    match old_
    case Disconnected => {Connecting}
    case Connecting => {Registered, Lost, Recovering}
    case Registered => {LinkActive, Lost, Recovering}
    case LinkActive => {Lost, Recovering}
    case Lost => {Recovering, Connecting}
    case Recovering => {Registered, Connecting}
  }

  predicate ValidTransition(old_: Link, new_: Link) { new_ in Allowed(old_) }

  // The legal moves as pairs.
  lemma TransitionTable(old_: Link, new_: Link)
    ensures ValidTransition(old_, new_)
            <==> (old_, new_) in {(Disconnected, Connecting),
                                  (Connecting, Registered), (Connecting, Lost), (Connecting, Recovering),
                                  (Registered, LinkActive), (Registered, Lost), (Registered, Recovering),
                                  (LinkActive, Lost), (LinkActive, Recovering),
                                  (Lost, Recovering), (Lost, Connecting),
                                  (Recovering, Registered), (Recovering, Connecting)}
  {
  }

  function Transition(t: Tracker, new_: Link): Tracker {
    if ValidTransition(t.link, new_) then t.(link := new_) else t
  }

  // Whether MarkLost opens a recovery window.
  predicate Opens(t: Tracker) {
    t.link != Disconnected && t.link != Lost && t.link != Recovering
  }

  function MarkLost(t: Tracker): Tracker {
    if Opens(t) then Tracker(Recovering, Armed) else t
  }

  function MarkRecovered(t: Tracker): Tracker { Tracker(Registered, NoTimer) }

  // The connection part of entry_resetConn.
  function ResetConn(t: Tracker): Tracker { Tracker(Connecting, NoTimer) }

  // The timer's function acts if it finds a window open.
  predicate Expires(t: Tracker) { t.link == Recovering }

  // The time is up: the runtime starts the timer's function, and Stop comes too late.
  function Fire(t: Tracker): Tracker
    requires t.timer == Armed
  {
    t.(timer := Fired)
  }

  // What holds of every tracker between calls once its process was spawned: LOST and
  // DISCONNECTED are never seen, and there is a timer exactly while recovering.
  predicate Settled(t: Tracker) {
    && t.link != Disconnected && t.link != Lost
    && (t.timer == NoTimer <==> t.link != Recovering)
  }

  class ConnTracker {
    var state: Link
    var recoveryTimer: Timer

    function View(): Tracker
      reads this
    {
      Tracker(state, recoveryTimer)
    }

    constructor ()
      ensures View() == UNUSED
    {
      state, recoveryTimer := Disconnected, NoTimer;
    }

    method TransitionTo(newState: Link) returns (ok: bool)
      modifies this
      ensures ok <==> ValidTransition(old(state), newState)
      ensures View() == Transition(old(View()), newState)
      ensures state == (if ok then newState else old(state)) && recoveryTimer == old(recoveryTimer)
    {
      ok := ValidTransition(state, newState);
      if ok {
        state := newState;
      }
    }

    // Returns whether a window was opened and a timer started.
    method Lose() returns (opens: bool)
      modifies this
      ensures View() == MarkLost(old(View())) && opens == Opens(old(View()))
      ensures opens <==> old(state) == Connecting || old(state) == Registered || old(state) == LinkActive
      ensures opens ==> state == Recovering && recoveryTimer == Armed
      ensures !opens ==> state == old(state) && recoveryTimer == old(recoveryTimer)
    {
      if state == Disconnected || state == Lost || state == Recovering {
        return false;
      }
      state := Lost;
      state := Recovering;
      if recoveryTimer != NoTimer {
        recoveryTimer := NoTimer;
      }
      recoveryTimer := Armed;
      return true;
    }

    method Recover() returns (wasRecovering: bool)
      modifies this
      ensures View() == MarkRecovered(old(View())) && wasRecovering == (old(state) == Recovering)
      ensures state == Registered && recoveryTimer == NoTimer
    {
      wasRecovering := state == Recovering;
      if recoveryTimer != NoTimer {
        recoveryTimer := NoTimer;
      }
      state := Registered;
    }

    method Reset()
      modifies this
      ensures View() == ResetConn(old(View()))
      ensures state == Connecting && recoveryTimer == NoTimer
    {
      state := Connecting;
      if recoveryTimer != NoTimer {
        recoveryTimer := NoTimer;
      }
    }

    // The body of the timer's function, whenever it gets to run.
    method OnTimer() returns (expired: bool)
      ensures expired <==> state == Recovering
      ensures expired == Expires(View())
    {
      expired := state == Recovering;
    }
  }
}
