/** What the tracker promises about single decisions and about what it holds on to: failures of
    the hand-over, dismissals, first polls, and records of other sessions. */
module TrackerPromises {
  import opened RunStatus
  import opened SessionTracker
  import opened SessionHistory

  // --- Starts ---------------------------------------------------------------------------

  /** A start is refused exactly while the service names a state other than idle, and then nothing
      changes; an accepted one forgets every earlier failure and waits for a newer session. */
  lemma {:induction false} StartIsRefusedExactlyWhen(t: Tracker, last: nat, service: Service)
    ensures var t' := Happened(t, StartAsked(last, service));
            if service in {Starting, Running, Stopping, Unknown} then t' == t
            else && t'.attempt.phase.SessionStarting? && !t'.attempt.failed && t'.watch.waiting && t'.watch.lastSession == last
  {
  }

  /** An event that does not end a failed hand-over at session `s`: a poll that shows nothing
      newer, or none; a start the service refuses; a dismissal while the service is not idle. */
  predicate LeavesFailure(e: Event, s: nat) {
    match e
    case Tick(p) => NotNewer(p, s)
    case StartAsked(_, service) => service in {Starting, Running, Stopping, Unknown}
    case HandoverFailed => true
    case Dismiss(_, service) => !service.Idle?
  }

  ghost predicate HandoverFailureHeld(t: Tracker, s: nat) {
    && t.watch.observed && !t.watch.ignoreRetained && t.watch.waiting && t.watch.lastSession == s
    && t.attempt.failed && !t.attempt.attempting && t.attempt.grace == 0 && t.attempt.phase.SessionFailed?
  }

  lemma {:induction false} FailureIsLeft(t: Tracker, s: nat, e: Event)
    requires HandoverFailureHeld(t, s) && LeavesFailure(e, s)
    ensures HandoverFailureHeld(Happened(t, e), s)
  {
  }

  /** A start at session `s` whose hand-over fails shows Failed, and goes on showing it after every
      sequence of events up to an accepted start, an accepted dismissal or a newer session. */
  lemma {:induction false} FailedHandoverStaysFailed(t: Tracker, s: nat, events: seq<Event>)
    requires forall i :: 0 <= i < |events| ==> LeavesFailure(events[i], s)
    ensures var t' := AllHappened(Happened(StartRequested(t, s), HandoverFailed), events);
            HandoverFailureHeld(t', s) && t'.attempt.phase.SessionFailed?
  {
    if |events| > 0 {
      FailedHandoverStaysFailed(t, s, events[..|events| - 1]);
      FailureIsLeft(AllHappened(Happened(StartRequested(t, s), HandoverFailed), events[..|events| - 1]), s, events[|events| - 1]);
    }
  }

  // --- Single records -------------------------------------------------------------------

  /** The first record of a newer session is read afresh: no earlier failure counts, and what is
      shown depends on that record alone, except that an idle one without a reason shows Failed
      when a start was under way. */
  lemma {:induction false} NewSessionIsReadAfresh(t: Tracker, p: Poll)
    requires p.Record? && t.watch.observed && p.session > t.watch.lastSession
    requires !(t.watch.ignoreRetained && p.session == t.watch.ignoredSession) && !t.attempt.sawRunning && t.attempt.grace == 0
    ensures var shown := Polled(t, p).attempt.phase;
            if p.reason.Failed? then shown == (if p.service.Idle? then SessionFailed else SessionStopping)
            else if !p.reason.Pending? then shown == (if p.service.Idle? then SessionIdle else SessionStopping)
            else if p.service.Stopping? then shown.SessionStopping?
            else if p.service.Running? && p.running then shown.SessionRunning?
            else if p.service.Running? || p.service.Starting? then shown.SessionStarting?
            else shown == (if t.attempt.attempting then SessionFailed else SessionIdle)
    ensures Follows(Polled(t, p).watch, p.session) || t.watch.ignoreRetained
  {
  }

  /** A record older than the session followed changes nothing at all. */
  lemma {:induction false} StaleRecordsChangeNothing(t: Tracker, p: Poll)
    requires p.Record? && Follows(t.watch, t.watch.lastSession) && p.session < t.watch.lastSession
    ensures Polled(t, p) == t
  {
  }

  /** A record of the adopted session counts for its service alone: it is read as a record without
      a reason is by a tracker that follows that session. */
  lemma {:induction false} AdoptedSessionShowsItsService(t: Tracker, p: Poll)
    requires p.Record? && t.watch.observed && t.watch.ignoreRetained && p.session == t.watch.ignoredSession
    ensures var followed := Tracker(Watch(p.session, true, false, 0, false), t.attempt);
            && Polled(t, p).attempt == Polled(followed, p.(reason := Pending)).attempt
            && Polled(t, p).watch == t.watch
    ensures p.service.Starting? ==> Polled(t, p).attempt.phase.SessionStarting?
    ensures p.service.Stopping? ==> Polled(t, p).attempt.phase.SessionStopping?
    ensures p.service.Running? && p.running ==> Polled(t, p).attempt.phase.SessionRunning?
  {
  }

  // --- First polls ----------------------------------------------------------------------

  /** The first record is adopted, its reason ignored for good, exactly when its service is idle
      or unnamed; with any other service its session is followed. */
  lemma {:induction false} FirstRecordIsAdoptedExactlyWhen(p: Poll)
    requires p.Record?
    ensures var w := Polled(FRESH, p).watch;
            && w.observed && w.lastSession == p.session && !w.waiting
            && (w.ignoreRetained <==> p.service in {Missing, Idle})
            && (w.ignoreRetained ==> w.ignoredSession == p.session)
  {
  }

  /** So a session met while it is busy is heard to its end: when its records come to say failed,
      the first idle one of them shows Failed, and so does every later one. */
  lemma {:induction false} ASessionMetBusyIsHeard(first: Poll, polls: seq<Poll>, j: nat)
    requires first.Record? && first.service !in {Missing, Idle} && j < |polls|
    requires forall i :: 0 <= i < |polls| ==> NotNewer(polls[i], first.session)
    requires forall i :: 0 <= i < |polls| && IsOf(polls[i], first.session) ==> polls[i].reason.Failed?
    requires IsOf(polls[j], first.session) && polls[j].service.Idle?
    ensures PolledAll(Polled(FRESH, first), polls[..j + 1]).attempt.phase.SessionFailed?
  {
    FailedRecordsSurface(Polled(FRESH, first), first.session, polls, j);
  }

  // --- Dismissals -----------------------------------------------------------------------

  predicate AtRest(t: Tracker, s: nat) {
    && t.watch == Watch(s, true, true, s, false)
    && !t.attempt.failed && !t.attempt.attempting && t.attempt.grace == 0 && t.attempt.phase.SessionIdle?
  }

  predicate RestingPoll(p: Poll, s: nat) {
    p.Record? ==> p.session <= s && (p.session == s ==> p.service in {Missing, Empty, Idle, Unknown})
  }

  lemma {:induction false} RestLasts(t: Tracker, s: nat, p: Poll)
    requires AtRest(t, s) && RestingPoll(p, s)
    ensures AtRest(Polled(t, p), s)
  {
  }

  /** A dismissal is accepted exactly of a shown failure with a confirmed idle service; any other
      changes nothing. After an accepted one the failure does not come back: whatever reason the
      records of the dismissed session carry, Idle is shown until a start or a busy service. */
  lemma {:induction false} DismissalLasts(t: Tracker, s: nat, service: Service, polls: seq<Poll>)
    requires forall i :: 0 <= i < |polls| ==> RestingPoll(polls[i], s)
    ensures var t' := Happened(t, Dismiss(s, service));
            if t.attempt.phase.SessionFailed? && service.Idle?
            then AtRest(PolledAll(t', polls), s) && PolledAll(t', polls).attempt.phase.SessionIdle?
            else t' == t
  {
    if |polls| > 0 && t.attempt.phase.SessionFailed? && service.Idle? {
      DismissalLasts(t, s, service, polls[..|polls| - 1]);
      RestLasts(PolledAll(Happened(t, Dismiss(s, service)), polls[..|polls| - 1]), s, polls[|polls| - 1]);
    }
  }
}
