/** The phase tracker: folds the service state, the engine flag, session ids and retained
    results into one phase. The class updates its fields step by step; each method is
    proved equal to a function on the tuple of those fields. */
module SessionTracker {
  import opened RunStatus

  datatype Phase = SessionIdle | SessionStarting | SessionRunning | SessionStopping | SessionFailed

  /** A service state name, up to the comparisons the tracker makes: no record, the empty
      string, the four known names, anything else. */
  datatype Service = Missing | Empty | Idle | Starting | Running | Stopping | Unknown

  const START_GRACE_TICKS := 8

  /** The fields about the start attempt in progress and the phase shown for it. */
  datatype Attempt = Attempt(phase: Phase, failed: bool, attempting: bool, sawRunning: bool, grace: int)

  /** The fields that decide whose records count. */
  datatype Watch = Watch(lastSession: nat, observed: bool, ignoreRetained: bool, ignoredSession: nat, waiting: bool)

  datatype Tracker = Tracker(watch: Watch, attempt: Attempt)

  const FRESH := Tracker(Watch(0, false, false, 0, false), Attempt(SessionIdle, false, false, false, 0))

  predicate StartIsAccepted(service: Service) {
    service.Missing? || service.Empty? || service.Idle?
  }

  const STARTING_UP := Attempt(SessionStarting, false, true, false, START_GRACE_TICKS)
  const GIVEN_UP := Attempt(SessionFailed, true, false, false, 0)

  function StartRequested(t: Tracker, lastSession: nat): Tracker {
    Tracker(Watch(lastSession, true, false, t.watch.ignoredSession, true), STARTING_UP)
  }

  function StartFailed(t: Tracker): Tracker {
    t.(attempt := GIVEN_UP)
  }

  /** The latch sets every attempt field but the phase, which its callers set. */
  function Latched(a: Attempt): Attempt {
    GIVEN_UP.(phase := a.phase)
  }

  /** An idle poll: the fields it leaves and the phase it resolves to. */
  function IdleResolved(a: Attempt): (Attempt, Phase) {
    if a.grace > 0 then
      if a.grace > 1 then (a.(grace := a.grace - 1), SessionStarting) else (Latched(a), SessionFailed)
    else if a.attempting && !a.sawRunning then (Latched(a), SessionFailed)
    else (a.(attempting := false, sawRunning := false), if a.failed then SessionFailed else SessionIdle)
  }

  function IdlePolled(a: Attempt): Attempt {
    var (a', p) := IdleResolved(a);
    a'.(phase := p)
  }

  /** A poll that carries only the service state and the engine flag. */
  function ServicePolled(a: Attempt, service: Service, running: bool): Attempt {
    match service
    case Starting => a.(attempting := true, grace := 0, phase := SessionStarting)
    case Running =>
      if running then a.(attempting := true, grace := 0, sawRunning := true, phase := SessionRunning)
      else a.(attempting := true, grace := 0, phase := if a.sawRunning then SessionStopping else SessionStarting)
    case Stopping => a.(grace := 0, phase := SessionStopping)
    case _ => IdlePolled(a)
  }

  function TerminalPolled(a: Attempt, service: Service, reason: RunReason): Attempt {
    var failed := a.failed || reason.Failed?;
    Attempt(if !service.Idle? then SessionStopping else if failed then SessionFailed else SessionIdle,
            failed, false, false, 0)
  }

  /** A record of the session the tracker follows. */
  function CurrentPolled(a: Attempt, service: Service, running: bool, reason: RunReason): Attempt {
    if reason.Pending? then ServicePolled(a, service, running) else TerminalPolled(a, service, reason)
  }

  /** The first poll fixes the baseline session, and with an idle service adopts it. */
  function Adopted(w: Watch, service: Service, session: nat): Watch {
    if w.observed then w
    else if service.Missing? || service.Idle? then Watch(session, true, true, session, w.waiting)
    else w.(observed := true, lastSession := session)
  }

  /** How a record is read: its reason ignored, as an idle tick, not at all, or in full. */
  datatype Reading = ReasonIgnored | AwaitingSession | Stale | Current | NewSession

  function ReadingOf(w: Watch, session: nat): Reading {
    if w.ignoreRetained && session == w.ignoredSession then ReasonIgnored
    else if w.waiting && session <= w.lastSession then AwaitingSession
    else if session < w.lastSession then Stale
    else if session == w.lastSession then Current
    else NewSession
  }

  function ObservedPolled(t: Tracker, service: Service, running: bool, session: nat, reason: RunReason): Tracker {
    match ReadingOf(t.watch, session)
    case ReasonIgnored => t.(attempt := ServicePolled(t.attempt, service, running))
    case AwaitingSession => t.(attempt := IdlePolled(t.attempt))
    case Stale => t
    case Current => t.(attempt := CurrentPolled(t.attempt, service, running, reason))
    case NewSession =>
      Tracker(t.watch.(lastSession := session, waiting := false),
              CurrentPolled(t.attempt.(failed := false), service, running, reason))
  }

  function RecordPolled(t: Tracker, service: Service, running: bool, session: nat, reason: RunReason): Tracker {
    ObservedPolled(t.(watch := Adopted(t.watch, service, session)), service, running, session, reason)
  }

  predicate DismissIsAccepted(t: Tracker, service: Service) {
    t.attempt.phase.SessionFailed? && service.Idle?
  }

  function Dismissed(t: Tracker, session: nat, service: Service): Tracker {
    if DismissIsAccepted(t, service) then RecordPolled(FRESH, service, false, session, Pending) else t
  }

  class SessionPhaseTracker {
    var phase: Phase
    var lastSession: nat
    var observed: bool
    var ignoreRetained: bool
    var ignoredSession: nat
    var waitingForSession: bool
    var failed: bool
    var attempting: bool
    var sawRunning: bool
    var grace: int

    function WatchFields(): Watch
      reads this
    {
      Watch(lastSession, observed, ignoreRetained, ignoredSession, waitingForSession)
    }

    function AttemptFields(): Attempt
      reads this
    {
      Attempt(phase, failed, attempting, sawRunning, grace)
    }

    function State(): Tracker
      reads this
    {
      Tracker(WatchFields(), AttemptFields())
    }

    constructor ()
      ensures State() == FRESH
    {
      phase, lastSession, observed, ignoreRetained, ignoredSession := SessionIdle, 0, false, false, 0;
      waitingForSession, failed, attempting, sawRunning, grace := false, false, false, false, 0;
    }

    method Reset()
      modifies this
      ensures State() == FRESH
    {
      phase, lastSession, observed, ignoreRetained, ignoredSession := SessionIdle, 0, false, false, 0;
      waitingForSession, failed, attempting, sawRunning, grace := false, false, false, false, 0;
    }

    method NoteStartRequested(last: nat, service: Service) returns (accepted: bool)
      modifies this
      ensures accepted <==> StartIsAccepted(service)
      ensures State() == if accepted then StartRequested(old(State()), last) else old(State())
    {
      if !service.Missing? && !service.Empty? && !service.Idle? {
        return false;
      }
      observed := true;
      ignoreRetained := false;
      waitingForSession := false;
      failed := false;
      attempting := true;
      sawRunning := false;
      grace := START_GRACE_TICKS;
      phase := SessionStarting;
      lastSession := last;
      waitingForSession := true;
      accepted := true;
    }

    method NoteStartFailed()
      modifies this
      ensures State() == StartFailed(old(State()))
    {
      failed := true;
      attempting := false;
      sawRunning := false;
      grace := 0;
      phase := SessionFailed;
    }

    method LatchFailure() returns (p: Phase)
      modifies this`failed, this`attempting, this`sawRunning, this`grace
      ensures AttemptFields() == Latched(old(AttemptFields())) && p == SessionFailed
    {
      failed := true;
      attempting := false;
      sawRunning := false;
      grace := 0;
      p := SessionFailed;
    }

    method IdlePhase() returns (p: Phase)
      modifies this`failed, this`attempting, this`sawRunning, this`grace
      ensures (AttemptFields(), p) == IdleResolved(old(AttemptFields()))
    {
      if grace > 0 {
        grace := grace - 1;
        if grace > 0 {
          return SessionStarting;
        }
        p := LatchFailure();
        return;
      }
      if attempting && !sawRunning {
        p := LatchFailure();
        return;
      }
      attempting := false;
      sawRunning := false;
      p := if failed then SessionFailed else SessionIdle;
    }

    method UpdateService(service: Service, running: bool) returns (p: Phase)
      modifies this`phase, this`failed, this`attempting, this`sawRunning, this`grace
      ensures AttemptFields() == ServicePolled(old(AttemptFields()), service, running) && p == phase
    {
      match service {
      case Starting =>
        attempting := true;
        grace := 0;
        phase := SessionStarting;
      case Running =>
        attempting := true;
        grace := 0;
        if running {
          sawRunning := true;
          phase := SessionRunning;
        } else {
          phase := if sawRunning then SessionStopping else SessionStarting;
        }
      case Stopping =>
        grace := 0;
        phase := SessionStopping;
      case _ =>
        var _ := FoldIdle();
      }
      p := phase;
    }

    method TerminalPhase(service: Service, reason: RunReason) returns (p: Phase)
      modifies this`phase, this`failed, this`attempting, this`sawRunning, this`grace
      ensures AttemptFields() == TerminalPolled(old(AttemptFields()), service, reason) && p == phase
    {
      if reason.Failed? {
        var _ := LatchFailure();
      } else {
        attempting := false;
        sawRunning := false;
        grace := 0;
      }
      phase := if service.Idle? then (if failed then SessionFailed else SessionIdle) else SessionStopping;
      p := phase;
    }

    method Update(service: Service, running: bool, session: nat, reason: RunReason) returns (p: Phase)
      modifies this
      ensures State() == RecordPolled(old(State()), service, running, session, reason) && p == phase
    {
      if !observed {
        observed := true;
        lastSession := session;
        if service.Missing? || service.Idle? {
          ignoredSession := session;
          ignoreRetained := true;
        }
      }
      assert WatchFields() == Adopted(old(WatchFields()), service, session);
      p := FoldRecord(service, running, session, reason);
    }

    /** The part of an update after the first-poll adoption. */
    method FoldRecord(service: Service, running: bool, session: nat, reason: RunReason) returns (p: Phase)
      modifies this
      ensures State() == ObservedPolled(old(State()), service, running, session, reason) && p == phase
    {
      if ignoreRetained && session == ignoredSession {
        p := UpdateService(service, running);
        return;
      }
      if waitingForSession && session <= lastSession {
        p := FoldIdle();
        return;
      }
      p := FoldFollowed(service, running, session, reason);
    }

    /** The part for a record that is neither quarantined nor waited past. */
    method FoldFollowed(service: Service, running: bool, session: nat, reason: RunReason) returns (p: Phase)
      requires var reading := ReadingOf(WatchFields(), session); reading.Stale? || reading.Current? || reading.NewSession?
      modifies this
      ensures State() == ObservedPolled(old(State()), service, running, session, reason) && p == phase
    {
      if session < lastSession {
        return phase;
      }
      if session > lastSession {
        lastSession := session;
        waitingForSession := false;
        failed := false;
      }
      p := FoldCurrent(service, running, reason);
    }

    method FoldIdle() returns (p: Phase)
      modifies this`phase, this`failed, this`attempting, this`sawRunning, this`grace
      ensures AttemptFields() == IdlePolled(old(AttemptFields())) && p == phase
    {
      var resolved := IdlePhase();
      phase := resolved;
      p := phase;
    }

    method FoldCurrent(service: Service, running: bool, reason: RunReason) returns (p: Phase)
      modifies this`phase, this`failed, this`attempting, this`sawRunning, this`grace
      ensures AttemptFields() == CurrentPolled(old(AttemptFields()), service, running, reason) && p == phase
    {
      if reason.Failed? || reason.Completed? || reason.Cancelled? {
        p := TerminalPhase(service, reason);
        return;
      }
      p := UpdateService(service, running);
    }

    method AcknowledgeFailure(session: nat, service: Service) returns (accepted: bool)
      modifies this
      ensures accepted <==> old(DismissIsAccepted(State(), service))
      ensures State() == Dismissed(old(State()), session, service)
    {
      if !phase.SessionFailed? || !service.Idle? {
        return false;
      }
      Reset();
      var _ := Update(service, false, session, Pending);
      accepted := true;
    }
  }
}
