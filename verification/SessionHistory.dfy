/** What the tracker promises over whole poll sequences. */
module SessionHistory {
  import opened RunStatus
  import opened SessionTracker

  /** One tick of the host: a coherent service record, or no record at all (which the host
      folds as an idle service). */
  datatype Poll = Record(service: Service, running: bool, session: nat, reason: RunReason) | NoRecord(running: bool)

  function Polled(t: Tracker, p: Poll): Tracker {
    match p
    case Record(service, running, session, reason) => RecordPolled(t, service, running, session, reason)
    case NoRecord(running) => t.(attempt := ServicePolled(t.attempt, Idle, running))
  }

  function PolledAll(t: Tracker, polls: seq<Poll>): Tracker {
    if |polls| == 0 then t else Polled(PolledAll(t, polls[..|polls| - 1]), polls[|polls| - 1])
  }

  /** No record, or one no newer than session `s`. */
  predicate NotNewer(p: Poll, s: nat) {
    p.Record? ==> p.session <= s
  }

  // --- The start grace period -----------------------------------------------------------

  /** After an accepted start, while polls show nothing newer than the old session, the
      first seven report Starting and every later one Failed, whatever else they say. */
  lemma {:induction false} StartGraceIsExact(t: Tracker, last: nat, polls: seq<Poll>)
    requires |polls| > 0
    requires forall i :: 0 <= i < |polls| ==> NotNewer(polls[i], last)
    ensures PolledAll(StartRequested(t, last), polls).attempt.phase
            == if |polls| < START_GRACE_TICKS then SessionStarting else SessionFailed
  {
    GraceCountsDown(t, last, polls);
  }

  lemma {:induction false} GraceCountsDown(t: Tracker, last: nat, polls: seq<Poll>)
    requires forall i :: 0 <= i < |polls| ==> NotNewer(polls[i], last)
    ensures var t' := PolledAll(StartRequested(t, last), polls);
            && t'.watch.observed && !t'.watch.ignoreRetained && t'.watch.waiting && t'.watch.lastSession == last && !t'.attempt.sawRunning
            && (|polls| < START_GRACE_TICKS ==>
                  t'.attempt.grace == START_GRACE_TICKS - |polls| && t'.attempt.phase.SessionStarting?
                   && t'.attempt.attempting && !t'.attempt.failed)
            && (|polls| >= START_GRACE_TICKS ==>
                  t'.attempt.grace == 0 && t'.attempt.phase.SessionFailed? && !t'.attempt.attempting && t'.attempt.failed)
  {
    if |polls| > 0 {
      GraceCountsDown(t, last, polls[..|polls| - 1]);
      assert NotNewer(polls[|polls| - 1], last);
    }
  }

  /** Everything that can happen to a tracker. */
  datatype Event =
    | Tick(p: Poll)
    | StartAsked(last: nat, service: Service)
    | HandoverFailed
    | Dismiss(session: nat, service: Service)

  function Happened(t: Tracker, e: Event): Tracker {
    match e
    case Tick(p) => Polled(t, p)
    case StartAsked(last, service) => if StartIsAccepted(service) then StartRequested(t, last) else t
    case HandoverFailed => StartFailed(t)
    case Dismiss(session, service) => Dismissed(t, session, service)
  }

  function AllHappened(t: Tracker, events: seq<Event>): Tracker {
    if |events| == 0 then t else Happened(AllHappened(t, events[..|events| - 1]), events[|events| - 1])
  }

  ghost predicate AttemptConsistent(a: Attempt) {
    && 0 <= a.grace <= START_GRACE_TICKS
    && (a.grace > 0 ==> a.phase.SessionStarting? && a.attempting && !a.failed && !a.sawRunning)
    && (a.sawRunning ==> a.attempting)
    && (a.phase.SessionRunning? ==> a.sawRunning)
  }

  ghost predicate WatchConsistent(w: Watch) {
    && ((w.waiting || w.ignoreRetained) ==> w.observed)
    && (w.ignoreRetained ==> w.ignoredSession <= w.lastSession)
  }

  ghost predicate Consistent(t: Tracker) {
    AttemptConsistent(t.attempt) && WatchConsistent(t.watch)
  }

  lemma {:induction false} CurrentKeepsConsistent(a: Attempt, service: Service, running: bool, reason: RunReason)
    requires AttemptConsistent(a)
    ensures AttemptConsistent(ServicePolled(a, service, running))
    ensures AttemptConsistent(CurrentPolled(a, service, running, reason))
  {
  }

  lemma {:induction false} RecordKeepsWatchConsistent(t: Tracker, service: Service, running: bool, session: nat, reason: RunReason)
    requires WatchConsistent(t.watch)
    ensures WatchConsistent(RecordPolled(t, service, running, session, reason).watch)
  {
  }

  /** The five things a record can do to the attempt fields. */
  lemma {:induction false} RecordReadings(t: Tracker, service: Service, running: bool, session: nat, reason: RunReason)
    ensures var a := RecordPolled(t, service, running, session, reason).attempt;
            || a == t.attempt
            || a == ServicePolled(t.attempt, service, running)
            || a == ServicePolled(t.attempt, Idle, running)
            || a == CurrentPolled(t.attempt, service, running, reason)
            || a == CurrentPolled(t.attempt.(failed := false), service, running, reason)
  {
  }

  lemma {:induction false} RecordKeepsConsistent(t: Tracker, service: Service, running: bool, session: nat, reason: RunReason)
    requires Consistent(t)
    ensures Consistent(RecordPolled(t, service, running, session, reason))
  {
    RecordKeepsWatchConsistent(t, service, running, session, reason);
    RecordReadings(t, service, running, session, reason);
    CurrentKeepsConsistent(t.attempt, service, running, reason);
    CurrentKeepsConsistent(t.attempt, Idle, running, reason);
    CurrentKeepsConsistent(t.attempt.(failed := false), service, running, reason);
  }

  lemma {:induction false} HappeningKeepsConsistent(t: Tracker, e: Event)
    requires Consistent(t)
    ensures Consistent(Happened(t, e))
  {
    match e
    case Tick(p) =>
      if p.Record? {
        RecordKeepsConsistent(t, p.service, p.running, p.session, p.reason);
      } else {
        CurrentKeepsConsistent(t.attempt, Idle, p.running, Pending);
      }
    case Dismiss(session, service) => RecordKeepsConsistent(FRESH, service, false, session, Pending);
    case _ =>
  }

  /** In every reachable state a running grace period means Starting, attempting, not
      failed and never seen running; and Running means the engine was seen running. */
  lemma {:induction false} ReachableTrackersAreConsistent(events: seq<Event>)
    ensures Consistent(AllHappened(FRESH, events))
  {
    if |events| > 0 {
      ReachableTrackersAreConsistent(events[..|events| - 1]);
      HappeningKeepsConsistent(AllHappened(FRESH, events[..|events| - 1]), events[|events| - 1]);
    }
  }

  // --- Short failures surface -----------------------------------------------------------

  /** The tracker takes records of session `n`, unless it is already past it. */
  ghost predicate ListensFor(t: Tracker, n: nat) {
    && t.watch.observed && !t.watch.ignoreRetained && t.watch.lastSession <= n && (t.watch.lastSession == n ==> !t.watch.waiting)
  }

  lemma {:induction false} PollKeepsListening(t: Tracker, n: nat, p: Poll)
    requires ListensFor(t, n) && NotNewer(p, n)
    ensures ListensFor(Polled(t, p), n)
  {
  }

  lemma {:induction false} PollsKeepListening(t: Tracker, n: nat, polls: seq<Poll>)
    requires ListensFor(t, n) && forall i :: 0 <= i < |polls| ==> NotNewer(polls[i], n)
    ensures ListensFor(PolledAll(t, polls), n)
  {
    if |polls| > 0 {
      PollsKeepListening(t, n, polls[..|polls| - 1]);
      PollKeepsListening(PolledAll(t, polls[..|polls| - 1]), n, polls[|polls| - 1]);
    }
  }

  ghost predicate FailureHeld(t: Tracker, n: nat) {
    && t.watch.observed && !t.watch.ignoreRetained && !t.watch.waiting && t.watch.lastSession == n
    && t.attempt.failed && !t.attempt.attempting && t.attempt.grace == 0
  }

  /** While records of session `n` keep its failure, nothing but a newer session clears it. */
  lemma {:induction false} FailureStaysHeld(t: Tracker, n: nat, polls: seq<Poll>)
    requires FailureHeld(t, n)
    requires forall i :: 0 <= i < |polls| ==> NotNewer(polls[i], n)
    requires forall i :: 0 <= i < |polls| && polls[i].Record? && polls[i].session == n ==> polls[i].reason.Failed?
    ensures FailureHeld(PolledAll(t, polls), n)
  {
    if |polls| > 0 {
      FailureStaysHeld(t, n, polls[..|polls| - 1]);
      assert NotNewer(polls[|polls| - 1], n);
    }
  }

  lemma {:induction false} FailedRecordIsHeld(t: Tracker, n: nat, service: Service, running: bool)
    requires ListensFor(t, n)
    ensures FailureHeld(Polled(t, Record(service, running, n, Failed)), n)
    ensures service.Idle? ==> Polled(t, Record(service, running, n, Failed)).attempt.phase.SessionFailed?
  {
  }

  lemma {:induction false} HeldFailureShows(t: Tracker, n: nat, p: Poll)
    requires FailureHeld(t, n)
    requires p.NoRecord? || (p.session == n && p.service.Idle? && p.reason.Failed?)
    ensures Polled(t, p).attempt.phase.SessionFailed?
  {
  }

  predicate IsOf(p: Poll, n: nat) {
    p.Record? && p.session == n
  }

  /** Whatever came before, a tracker that listens for a session whose records all say failed
      shows Failed at the first idle poll of it and at every later one; and once it has read
      one, at every poll without a record too. */
  lemma {:induction false} FailedRecordsSurface(t: Tracker, n: nat, polls: seq<Poll>, j: nat)
    requires ListensFor(t, n) && j < |polls|
    requires forall i :: 0 <= i < |polls| ==> NotNewer(polls[i], n)
    requires forall i :: 0 <= i < |polls| && IsOf(polls[i], n) ==> polls[i].reason.Failed?
    ensures IsOf(polls[j], n) && polls[j].service.Idle? ==> PolledAll(t, polls[..j + 1]).attempt.phase.SessionFailed?
    ensures polls[j].NoRecord? && (exists i :: 0 <= i < j && IsOf(polls[i], n)) ==>
              PolledAll(t, polls[..j + 1]).attempt.phase.SessionFailed?
  {
    assert polls[..j + 1][..j] == polls[..j];
    PollsKeepListening(t, n, polls[..j]);
    if IsOf(polls[j], n) {
      FailedRecordIsHeld(PolledAll(t, polls[..j]), n, polls[j].service, polls[j].running);
    } else if exists i :: 0 <= i < j && IsOf(polls[i], n) {
      var i :| 0 <= i < j && IsOf(polls[i], n);
      ReadRecordIsHeld(t, n, polls, i, j);
      if polls[j].NoRecord? {
        HeldFailureShows(PolledAll(t, polls[..j]), n, polls[j]);
      }
    }
  }

  lemma {:induction false} ReadRecordIsHeld(t: Tracker, n: nat, polls: seq<Poll>, i: nat, j: nat)
    requires ListensFor(t, n) && i < j <= |polls| && IsOf(polls[i], n)
    requires forall k :: 0 <= k < |polls| ==> NotNewer(polls[k], n)
    requires forall k :: 0 <= k < |polls| && IsOf(polls[k], n) ==> polls[k].reason.Failed?
    ensures FailureHeld(PolledAll(t, polls[..j]), n)
  {
    PollsKeepListening(t, n, polls[..i]);
    assert polls[..i + 1][..i] == polls[..i];
    FailedRecordIsHeld(PolledAll(t, polls[..i]), n, polls[i].service, polls[i].running);
    PolledInParts(t, polls[..i + 1], polls[i + 1..j]);
    assert polls[..i + 1] + polls[i + 1..j] == polls[..j];
    FailureStaysHeld(PolledAll(t, polls[..i + 1]), n, polls[i + 1..j]);
  }

  lemma {:induction false} PolledInParts(t: Tracker, a: seq<Poll>, b: seq<Poll>)
    ensures PolledAll(t, a + b) == PolledAll(PolledAll(t, a), b)
  {
    if |b| == 0 {
      assert a + b == a;
    } else {
      assert (a + b)[..|a + b| - 1] == a + b[..|b| - 1];
      PolledInParts(t, a, b[..|b| - 1]);
    }
  }

  // --- Retained results cannot leak -----------------------------------------------------

  /** Reasons carried by sessions up to `s` are quarantined. */
  ghost predicate Quarantined(t: Tracker, s: nat) {
    && t.watch.observed
    && (t.watch.lastSession > s
        || (t.watch.lastSession == s && (t.watch.waiting || (t.watch.ignoreRetained && t.watch.ignoredSession == s))))
  }

  lemma {:induction false} QuarantineBegins(t: Tracker, s: nat, service: Service, running: bool, reason: RunReason)
    ensures Quarantined(StartRequested(t, s), s)
    ensures !t.watch.observed && (service.Idle? || service.Missing?) ==> Quarantined(RecordPolled(t, service, running, s, reason), s)
    ensures DismissIsAccepted(t, service) ==> Quarantined(Dismissed(t, s, service), s)
  {
  }

  /** Equal up to the reason field of records no newer than `s`. */
  predicate SameButOldReason(p: Poll, q: Poll, s: nat) {
    p == q || (p.Record? && q.Record? && p.session <= s && q == p.(reason := q.reason))
  }

  lemma {:induction false} OldReasonIsIgnored(t: Tracker, s: nat, p: Poll, q: Poll)
    requires Quarantined(t, s) && SameButOldReason(p, q, s)
    ensures Polled(t, p) == Polled(t, q) && Quarantined(Polled(t, p), s)
  {
    if p.Record? {
      assert Adopted(t.watch, p.service, p.session) == t.watch;
      if p.session <= s {
        assert || (t.watch.ignoreRetained && p.session == t.watch.ignoredSession)
               || (t.watch.waiting && p.session <= t.watch.lastSession)
               || p.session < t.watch.lastSession;
      }
    }
  }

  /** Two runs: from a quarantined tracker, poll sequences that differ only in old reasons
      leave identical trackers. */
  lemma {:induction false} OldReasonsCannotLeak(t: Tracker, s: nat, ps: seq<Poll>, qs: seq<Poll>)
    requires Quarantined(t, s) && |ps| == |qs|
    requires forall i :: 0 <= i < |ps| ==> SameButOldReason(ps[i], qs[i], s)
    ensures PolledAll(t, ps) == PolledAll(t, qs)
    ensures Quarantined(PolledAll(t, ps), s)
  {
    if |ps| > 0 {
      OldReasonsCannotLeak(t, s, ps[..|ps| - 1], qs[..|qs| - 1]);
      OldReasonIsIgnored(PolledAll(t, ps[..|ps| - 1]), s, ps[|ps| - 1], qs[|qs| - 1]);
    }
  }

  // --- Phases only move forward ---------------------------------------------------------

  function ServiceRank(service: Service): nat {
    match service
    case Starting => 0
    case Running => 1
    case Stopping => 2
    case _ => 3
  }

  function PhaseRank(p: Phase): nat {
    match p
    case SessionStarting => 0
    case SessionRunning => 1
    case SessionStopping => 2
    case SessionIdle => 3
    case SessionFailed => 4
  }

  predicate OfSession(p: Poll, n: nat) {
    && p.Record? && p.session == n
    && (p.service.Starting? || p.service.Running? || p.service.Stopping? || p.service.Idle?)
  }

  /** A record with the engine flag up, or down. */
  predicate Up(p: Poll) {
    p.Record? && p.running
  }

  predicate Down(p: Poll) {
    p.Record? && !p.running
  }

  /** The polls of one session, some of them possibly lost. Of the records: the service's
      states in order, the engine flag up for one interval at most, a terminal reason that
      stays once set. */
  ghost predicate Orderly(polls: seq<Poll>, n: nat) {
    && (forall i :: 0 <= i < |polls| && polls[i].Record? ==> OfSession(polls[i], n))
    && (forall i, j :: 0 <= i < j < |polls| && polls[i].Record? && polls[j].Record? ==>
          ServiceRank(polls[i].service) <= ServiceRank(polls[j].service))
    && (forall i, j, k :: 0 <= i < j < k < |polls| && Up(polls[i]) && Down(polls[j]) ==> !Up(polls[k]))
    && (forall i, j :: 0 <= i < j < |polls| && polls[i].Record? && polls[j].Record? && !polls[i].reason.Pending? ==>
          polls[j].reason == polls[i].reason)
  }

  /** The tracker between an accepted start and the first record of session `n`. */
  ghost predicate Opening(t: Tracker, n: nat) {
    && t.watch.observed && !t.watch.ignoreRetained && t.watch.waiting && t.watch.lastSession < n
    && AttemptConsistent(t.attempt) && !t.attempt.sawRunning
  }

  ghost predicate Follows(w: Watch, n: nat) {
    w.observed && !w.ignoreRetained && !w.waiting && w.lastSession == n
  }

  /** How an attempt stands to the last record `p` of its session. */
  ghost predicate Linked(a: Attempt, p: Poll) {
    && p.Record? && AttemptConsistent(a)
    && match a.phase
       case SessionStarting => true
       case SessionRunning => p.service.Running? && p.running && p.reason.Pending? && a.grace == 0
       case SessionStopping =>
         && a.grace == 0
         && !p.service.Idle?
         && (!p.reason.Pending? || p.service.Stopping? || (p.service.Running? && !p.running && a.sawRunning))
       case SessionIdle => p.service.Idle? && !a.attempting && !a.failed && a.grace == 0
       case SessionFailed => p.service.Idle? && !a.attempting && a.failed && a.grace == 0
  }

  /** One record after another of the same session never moves the phase back. */
  lemma {:induction false} StepMovesForward(a: Attempt, p: Poll, next: Poll, n: nat)
    requires Linked(a, p) && OfSession(p, n) && OfSession(next, n)
    requires ServiceRank(p.service) <= ServiceRank(next.service)
    requires !p.reason.Pending? ==> next.reason == p.reason
    requires a.sawRunning && !p.running ==> !next.running
    ensures var a' := CurrentPolled(a, next.service, next.running, next.reason);
            && Linked(a', next)
            && PhaseRank(a.phase) <= PhaseRank(a'.phase)
            && (a'.sawRunning ==> a.sawRunning || next.running)
  {
  }

  lemma {:induction false} FirstRecordLinks(a: Attempt, next: Poll, n: nat)
    requires AttemptConsistent(a) && !a.sawRunning && OfSession(next, n)
    ensures var a' := CurrentPolled(a.(failed := false), next.service, next.running, next.reason);
            Linked(a', next) && (a'.sawRunning ==> next.running)
  {
  }

  /** A record of session `n` is read in full, by the tracker that follows `n` and by the
      one that was waiting for it. */
  lemma {:induction false} SessionRecordIsRead(t: Tracker, p: Poll, n: nat)
    requires OfSession(p, n)
    ensures Follows(t.watch, n) ==>
              Polled(t, p) == Tracker(t.watch, CurrentPolled(t.attempt, p.service, p.running, p.reason))
    ensures Opening(t, n) ==>
              && Follows(Polled(t, p).watch, n)
              && Polled(t, p).attempt == CurrentPolled(t.attempt.(failed := false), p.service, p.running, p.reason)
  {
  }

  /** How an attempt stands after a poll without a record: still within the grace period, or
      idle, or failed. */
  ghost predicate Lapsed(a: Attempt) {
    && AttemptConsistent(a) && !a.sawRunning
    && (a.grace == 0 ==> !a.attempting && a.phase == (if a.failed then SessionFailed else SessionIdle))
  }

  lemma {:induction false} LostPollLapses(a: Attempt, p: Poll, running: bool)
    requires Lapsed(a) || Linked(a, p)
    ensures var a' := ServicePolled(a, Idle, running);
            Lapsed(a') && PhaseRank(a.phase) <= PhaseRank(a'.phase) && (a'.grace > 0 ==> a.grace > 0)
  {
  }

  /** The record after a lost poll moves the phase back exactly when the grace period is over
      and the service is not idle. */
  lemma {:induction false} RecordAfterLoss(a: Attempt, next: Poll, n: nat)
    requires Lapsed(a) && OfSession(next, n)
    ensures var a' := CurrentPolled(a, next.service, next.running, next.reason);
            && Linked(a', next) && (a'.sawRunning ==> next.running)
            && (a'.grace > 0 ==> a.grace > 0 && next.service.Idle?)
            && (PhaseRank(a'.phase) < PhaseRank(a.phase) <==> a.grace == 0 && !next.service.Idle?)
  {
  }

  /** One lost poll and the next record, whatever that record says: the lost poll never moves
      the phase back, and the record does if and only if at most one tick of grace was left and
      its service is not idle. */
  lemma {:induction false} LostPollThenRecord(t: Tracker, n: nat, p: Poll, running: bool, next: Poll)
    requires Follows(t.watch, n) && Linked(t.attempt, p) && OfSession(next, n)
    ensures var t1 := Polled(t, NoRecord(running));
            && PhaseRank(t.attempt.phase) <= PhaseRank(t1.attempt.phase)
            && (PhaseRank(Polled(t1, next).attempt.phase) < PhaseRank(t1.attempt.phase)
                <==> t.attempt.grace <= 1 && !next.service.Idle?)
  {
    LostPollLapses(t.attempt, p, running);
    var t1 := Polled(t, NoRecord(running));
    SessionRecordIsRead(t1, next, n);
    RecordAfterLoss(t1.attempt, next, n);
  }

  ghost predicate RoseBefore(polls: seq<Poll>, j: nat)
    requires j <= |polls|
  {
    exists i :: 0 <= i < j && Up(polls[i])
  }

  /** How the tracker stands after the first `j` polls of its session. */
  ghost predicate Standing(t: Tracker, polls: seq<Poll>, j: nat, n: nat)
    requires 0 < j <= |polls|
  {
    && Follows(t.watch, n)
    && (if polls[j - 1].Record? then Linked(t.attempt, polls[j - 1]) else Lapsed(t.attempt))
    && (t.attempt.sawRunning ==> RoseBefore(polls, j))
    && (t.attempt.grace > 0 ==> forall i :: 0 <= i < j && polls[i].Record? ==> polls[i].service.Idle?)
  }

  /** The poll at `i` is the first record after a lost one, and its service is not idle. */
  predicate ResumesAt(polls: seq<Poll>, i: nat)
    requires 0 < i < |polls|
  {
    polls[i - 1].NoRecord? && polls[i].Record? && !polls[i].service.Idle?
  }

  lemma {:induction false} LossKeepsStanding(t: Tracker, polls: seq<Poll>, j: nat, n: nat)
    requires 0 < j < |polls| && Standing(t, polls, j, n) && polls[j].NoRecord?
    ensures Standing(Polled(t, polls[j]), polls, j + 1, n)
    ensures PhaseRank(t.attempt.phase) <= PhaseRank(Polled(t, polls[j]).attempt.phase)
  {
    LostPollLapses(t.attempt, polls[j - 1], polls[j].running);
  }

  /** What the order of a session says of the record at `j` and what came before it. */
  ghost predicate InOrder(polls: seq<Poll>, j: nat, n: nat)
    requires 0 < j < |polls|
  {
    && OfSession(polls[j], n)
    && (polls[0].Record? && polls[0].service.Idle? ==> polls[j].service.Idle?)
    && (polls[j - 1].Record? ==>
          && OfSession(polls[j - 1], n) && ServiceRank(polls[j - 1].service) <= ServiceRank(polls[j].service)
          && (!polls[j - 1].reason.Pending? ==> polls[j].reason == polls[j - 1].reason)
          && (RoseBefore(polls, j) && Down(polls[j - 1]) ==> !Up(polls[j])))
  }

  lemma {:induction false} OrderlyRecord(polls: seq<Poll>, j: nat, n: nat)
    requires 0 < j < |polls| && Orderly(polls, n) && polls[j].Record?
    ensures InOrder(polls, j, n)
  {
    if RoseBefore(polls, j) && Down(polls[j - 1]) {
      var i :| 0 <= i < j && Up(polls[i]);
      assert i < j - 1 && !Up(polls[j]);
    }
  }

  lemma {:induction false} RecordKeepsStanding(t: Tracker, polls: seq<Poll>, j: nat, n: nat)
    requires 0 < j < |polls| && Standing(t, polls, j, n) && InOrder(polls, j, n) && polls[0].Record?
    ensures Standing(Polled(t, polls[j]), polls, j + 1, n)
    ensures PhaseRank(Polled(t, polls[j]).attempt.phase) < PhaseRank(t.attempt.phase) <==> ResumesAt(polls, j)
  {
    var last, next := polls[j - 1], polls[j];
    SessionRecordIsRead(t, next, n);
    assert next.running ==> RoseBefore(polls, j + 1) by {
      assert next.running ==> Up(polls[j]);
    }
    assert RoseBefore(polls, j) ==> RoseBefore(polls, j + 1);
    if last.NoRecord? {
      RecordAfterLoss(t.attempt, next, n);
    } else {
      StepMovesForward(t.attempt, last, next, n);
    }
  }

  lemma {:induction false} FirstRecordStands(t: Tracker, n: nat, polls: seq<Poll>)
    requires Opening(t, n) && |polls| > 0 && OfSession(polls[0], n)
    ensures Standing(Polled(t, polls[0]), polls, 1, n)
  {
    SessionRecordIsRead(t, polls[0], n);
    FirstRecordLinks(t.attempt, polls[0], n);
    assert polls[0].running ==> Up(polls[0]);
  }

  lemma {:induction false} PollKeepsStanding(t: Tracker, polls: seq<Poll>, j: nat, n: nat)
    requires 0 < j < |polls| && Standing(t, polls, j, n) && Orderly(polls, n) && polls[0].Record?
    ensures Standing(Polled(t, polls[j]), polls, j + 1, n)
    ensures PhaseRank(Polled(t, polls[j]).attempt.phase) < PhaseRank(t.attempt.phase) <==> ResumesAt(polls, j)
  {
    if polls[j].NoRecord? {
      LossKeepsStanding(t, polls, j, n);
    } else {
      OrderlyRecord(polls, j, n);
      RecordKeepsStanding(t, polls, j, n);
    }
  }

  lemma {:induction false} LastPolled(t: Tracker, polls: seq<Poll>, j: nat)
    requires 0 < j <= |polls|
    ensures PolledAll(t, polls[..j]) == Polled(PolledAll(t, polls[..j - 1]), polls[j - 1])
  {
    assert polls[..j][..j - 1] == polls[..j - 1];
  }

  lemma {:induction false} SessionAdvances(t0: Tracker, n: nat, polls: seq<Poll>, j: nat)
    requires Opening(t0, n) && Orderly(polls, n) && 1 <= j <= |polls| && polls[0].Record?
    ensures var t := PolledAll(t0, polls[..j]);
            && Standing(t, polls, j, n)
            && (j > 1 ==> (PhaseRank(t.attempt.phase) < PhaseRank(PolledAll(t0, polls[..j - 1]).attempt.phase)
                           <==> ResumesAt(polls, j - 1)))
  {
    LastPolled(t0, polls, j);
    if j == 1 {
      FirstRecordStands(t0, n, polls);
    } else {
      SessionAdvances(t0, n, polls, j - 1);
      PollKeepsStanding(PolledAll(t0, polls[..j - 1]), polls, j - 1, n);
    }
  }

  /** Over an orderly session, lost polls included: from its first record on, the phase moves
      back at a poll if and only if that poll is the first record after a lost one and its
      service is not idle. A lost poll itself never moves it back. */
  lemma {:induction false} PhaseMovesBackExactlyWhen(t: Tracker, s: nat, n: nat, waiting: seq<Poll>, polls: seq<Poll>, j: nat)
    requires s < n && forall k :: 0 <= k < |waiting| ==> NotNewer(waiting[k], s)
    requires Orderly(polls, n) && 0 < j < |polls| && polls[0].Record?
    ensures var t0 := PolledAll(StartRequested(t, s), waiting);
            PhaseRank(PolledAll(t0, polls[..j + 1]).attempt.phase) < PhaseRank(PolledAll(t0, polls[..j]).attempt.phase)
            <==> ResumesAt(polls, j)
  {
    GraceCountsDown(t, s, waiting);
    SessionAdvances(PolledAll(StartRequested(t, s), waiting), n, polls, j + 1);
  }

  /** With every record there, the `j`-th one leaves the phase no earlier than it was. */
  lemma {:induction false} EveryRecordMovesForward(t0: Tracker, n: nat, polls: seq<Poll>, j: nat)
    requires Opening(t0, n) && Orderly(polls, n) && 0 < j <= |polls|
    requires polls[0].Record? && polls[j - 1].Record? && (j > 1 ==> polls[j - 2].Record?)
    ensures var b := PolledAll(t0, polls[..j]).attempt.phase;
            && (j > 1 ==> PhaseRank(PolledAll(t0, polls[..j - 1]).attempt.phase) <= PhaseRank(b))
            && (PhaseRank(b) >= 3 ==> polls[j - 1].service.Idle?)
  {
    SessionAdvances(t0, n, polls, j);
    assert Linked(PolledAll(t0, polls[..j]).attempt, polls[j - 1]);
  }

  lemma {:induction false} RecordsMoveForward(t0: Tracker, n: nat, polls: seq<Poll>, i: nat, j: nat)
    requires Opening(t0, n) && Orderly(polls, n) && 0 < i <= j <= |polls|
    requires forall k :: 0 <= k < |polls| ==> polls[k].Record?
    ensures PhaseRank(PolledAll(t0, polls[..i]).attempt.phase) <= PhaseRank(PolledAll(t0, polls[..j]).attempt.phase)
    decreases j - i
  {
    if i < j {
      RecordsMoveForward(t0, n, polls, i, j - 1);
      EveryRecordMovesForward(t0, n, polls, j);
    }
  }

  /** So after an accepted start, over the records of the new session the phase never moves
      back in the order Starting, Running, Stopping, Idle, Failed, as long as no record is
      lost; and Idle or Failed only appears on an idle poll. */
  lemma {:induction false} PhasesOnlyMoveForward(t: Tracker, s: nat, n: nat, waiting: seq<Poll>, polls: seq<Poll>, i: nat, j: nat)
    requires s < n && forall k :: 0 <= k < |waiting| ==> NotNewer(waiting[k], s)
    requires Orderly(polls, n) && 0 < i <= j <= |polls| && forall k :: 0 <= k < |polls| ==> polls[k].Record?
    ensures var t0 := PolledAll(StartRequested(t, s), waiting);
            var a, b := PolledAll(t0, polls[..i]).attempt.phase, PolledAll(t0, polls[..j]).attempt.phase;
            && PhaseRank(a) <= PhaseRank(b)
            && (PhaseRank(b) >= 3 ==> polls[j - 1].service.Idle?)
  {
    GraceCountsDown(t, s, waiting);
    var t0 := PolledAll(StartRequested(t, s), waiting);
    RecordsMoveForward(t0, n, polls, i, j);
    EveryRecordMovesForward(t0, n, polls, j);
  }

  /** The order needs a record on every tick: one lost record in the middle of a run is read
      as an idle service, so the phase falls from Running to Idle and climbs back. */
  lemma {:induction false} ALostRecordMovesThePhaseBack(t: Tracker, s: nat, n: nat)
    requires s < n
    ensures var up := PolledAll(StartRequested(t, s), [Record(Running, true, n, Pending)]);
            && up.attempt.phase.SessionRunning?
            && Polled(up, NoRecord(true)).attempt.phase.SessionIdle?
            && Polled(Polled(up, NoRecord(true)), Record(Running, true, n, Pending)).attempt.phase.SessionRunning?
  {
    assert [Record(Running, true, n, Pending)][..0] == [];
    assert PolledAll(StartRequested(t, s), []) == StartRequested(t, s);
  }

  // --- When a normal end shows as one ---------------------------------------------------

  /** A record that says the session is under way, and one that says nothing is going on; a
      lost record is read as the latter. */
  predicate Busy(p: Poll) {
    p.Record? && p.reason.Pending? && (p.service.Starting? || p.service.Running? || p.service.Stopping?)
  }

  predicate Quiet(p: Poll) {
    p.NoRecord? || (p.reason.Pending? && p.service.Idle?)
  }

  /** A busy record that says a start is under way, and one that says the engine runs. */
  predicate Asks(p: Poll) {
    Busy(p) && !p.service.Stopping?
  }

  predicate Answers(p: Poll) {
    Busy(p) && p.service.Running? && p.running
  }

  /** Where the unbroken stretch of busy records that ends before `j` begins. */
  function StretchStart(polls: seq<Poll>, j: nat): (k: nat)
    requires j <= |polls|
    ensures k <= j && (k > 0 ==> !Busy(polls[k - 1]))
    ensures forall m :: k <= m < j ==> Busy(polls[m])
  {
    if j == 0 || !Busy(polls[j - 1]) then j else StretchStart(polls, j - 1)
  }

  ghost predicate SomeAsks(polls: seq<Poll>, k: nat, j: nat)
    requires k <= j <= |polls|
  {
    exists m :: k <= m < j && Asks(polls[m])
  }

  ghost predicate SomeAnswers(polls: seq<Poll>, k: nat, j: nat)
    requires k <= j <= |polls|
  {
    exists m :: k <= m < j && Answers(polls[m])
  }

  /** Nothing but quiet polls so far, too few to use up the grace period of which `w` ticks
      had gone by before. */
  ghost predicate InGrace(w: nat, polls: seq<Poll>, j: nat)
    requires j <= |polls|
  {
    w + j < START_GRACE_TICKS && forall i :: 0 <= i < j ==> Quiet(polls[i])
  }

  /** The busy records just before `j` say that a start is under way, or follow the grace
      period of one, and none of them says that the engine runs. */
  ghost predicate Unanswered(w: nat, polls: seq<Poll>, j: nat)
    requires j <= |polls|
  {
    var k := StretchStart(polls, j);
    k < j && !SomeAnswers(polls, k, j) && (InGrace(w, polls, k) || SomeAsks(polls, k, j))
  }

  /** The poll makes the session fail: a quiet one that breaks an unanswered stretch, or that
      uses up the grace period. */
  ghost predicate FailsAt(w: nat, polls: seq<Poll>, i: nat)
    requires i < |polls|
  {
    Quiet(polls[i]) && (Unanswered(w, polls, i) || (InGrace(w, polls, i) && w + i + 1 == START_GRACE_TICKS))
  }

  ghost predicate FailsBefore(w: nat, polls: seq<Poll>, j: nat)
    requires j <= |polls|
  {
    exists i :: 0 <= i < j && FailsAt(w, polls, i)
  }

  /** What the attempt fields say about the first `j` polls. */
  ghost predicate Tells(a: Attempt, w: nat, polls: seq<Poll>, j: nat)
    requires j <= |polls|
  {
    var k := StretchStart(polls, j);
    && (a.failed <==> FailsBefore(w, polls, j))
    && (a.sawRunning <==> SomeAnswers(polls, k, j))
    && (a.attempting <==> InGrace(w, polls, k) || SomeAsks(polls, k, j))
    && a.grace == if k == j && InGrace(w, polls, j) then START_GRACE_TICKS - w - j else 0
  }

  function Next(a: Attempt, p: Poll): Attempt {
    if p.NoRecord? then ServicePolled(a, Idle, p.running) else CurrentPolled(a, p.service, p.running, p.reason)
  }

  lemma {:induction false} BusyTells(a: Attempt, w: nat, polls: seq<Poll>, j: nat)
    requires j < |polls| && Tells(a, w, polls, j) && Busy(polls[j])
    ensures Tells(Next(a, polls[j]), w, polls, j + 1)
  {
    var k := StretchStart(polls, j);
    assert StretchStart(polls, j + 1) == k;
    assert SomeAnswers(polls, k, j + 1) <==> SomeAnswers(polls, k, j) || Answers(polls[j]);
    assert SomeAsks(polls, k, j + 1) <==> SomeAsks(polls, k, j) || Asks(polls[j]);
    assert !FailsAt(w, polls, j);
    assert FailsBefore(w, polls, j + 1) <==> FailsBefore(w, polls, j);
  }

  lemma {:induction false} QuietTells(a: Attempt, w: nat, polls: seq<Poll>, j: nat)
    requires j < |polls| && Tells(a, w, polls, j) && Quiet(polls[j])
    ensures Tells(Next(a, polls[j]), w, polls, j + 1)
  {
    var k := StretchStart(polls, j);
    assert StretchStart(polls, j + 1) == j + 1;
    assert FailsBefore(w, polls, j + 1) <==> FailsBefore(w, polls, j) || FailsAt(w, polls, j);
    if k < j {
      assert !Quiet(polls[k]);
      assert !InGrace(w, polls, j + 1);
    } else {
      assert InGrace(w, polls, j + 1) <==> InGrace(w, polls, j) && w + j + 1 < START_GRACE_TICKS;
    }
  }

  lemma {:induction false} EndTells(a: Attempt, w: nat, polls: seq<Poll>, j: nat)
    requires j < |polls| && Tells(a, w, polls, j)
    requires polls[j].Record? && (polls[j].reason.Completed? || polls[j].reason.Cancelled?)
    ensures Tells(Next(a, polls[j]), w, polls, j + 1)
    ensures polls[j].service.Idle? ==>
              Next(a, polls[j]).phase == if FailsBefore(w, polls, j + 1) then SessionFailed else SessionIdle
  {
    assert StretchStart(polls, j + 1) == j + 1;
    assert !Quiet(polls[j]) && !InGrace(w, polls, j + 1);
    assert FailsBefore(w, polls, j + 1) <==> FailsBefore(w, polls, j);
  }

  lemma {:induction false} SessionTells(t0: Tracker, w: nat, n: nat, polls: seq<Poll>, j: nat)
    requires Opening(t0, n) && 1 <= j <= |polls| && polls[0].Record?
    requires Tells(t0.attempt.(failed := false), w, polls, 0)
    requires forall i :: 0 <= i < |polls| && polls[i].Record? ==> OfSession(polls[i], n) && !polls[i].reason.Failed?
    ensures Follows(PolledAll(t0, polls[..j]).watch, n)
    ensures Tells(PolledAll(t0, polls[..j]).attempt, w, polls, j)
  {
    var p := polls[j - 1];
    var before := PolledAll(t0, polls[..j - 1]);
    assert polls[..j][..j - 1] == polls[..j - 1];
    assert PolledAll(t0, polls[..j]) == Polled(before, p);
    var a := if j == 1 then t0.attempt.(failed := false) else before.attempt;
    if j > 1 {
      SessionTells(t0, w, n, polls, j - 1);
    }
    if p.Record? {
      SessionRecordIsRead(before, p, n);
    }
    assert Polled(before, p).attempt == Next(a, p);
    if Busy(p) {
      BusyTells(a, w, polls, j - 1);
    } else if Quiet(p) {
      QuietTells(a, w, polls, j - 1);
    } else {
      EndTells(a, w, polls, j - 1);
    }
  }

  /** A run that ended normally, completed or cancelled, shows Idle at an idle poll if and only
      if no poll of its session made it fail: none was quiet (lost, or idle without a result)
      right after busy records of which none said that the engine runs, and none used up the
      grace period. Otherwise it shows Failed. */
  lemma {:induction false} NormalEndShowsIdleExactlyWhen(t: Tracker, s: nat, n: nat, waiting: seq<Poll>, polls: seq<Poll>)
    requires s < n && forall k :: 0 <= k < |waiting| ==> NotNewer(waiting[k], s)
    requires |polls| > 0 && polls[0].Record?
    requires forall i :: 0 <= i < |polls| && polls[i].Record? ==> OfSession(polls[i], n) && !polls[i].reason.Failed?
    requires var last := polls[|polls| - 1]; last.Record? && last.service.Idle? && !last.reason.Pending?
    ensures PolledAll(PolledAll(StartRequested(t, s), waiting), polls).attempt.phase
            == if exists i :: 0 <= i < |polls| && FailsAt(|waiting|, polls, i) then SessionFailed else SessionIdle
  {
    GraceCountsDown(t, s, waiting);
    var t0, w, j := PolledAll(StartRequested(t, s), waiting), |waiting|, |polls| - 1;
    assert InGrace(w, polls, 0) <==> w < START_GRACE_TICKS;
    var p, before := polls[j], PolledAll(t0, polls[..j]);
    assert polls[..j + 1] == polls;
    if j > 0 {
      SessionTells(t0, w, n, polls, j);
    }
    SessionRecordIsRead(before, p, n);
    EndTells(if j == 0 then t0.attempt.(failed := false) else before.attempt, w, polls, j);
  }

  /** Such a session exists: a record lost while the service is starting makes a run that
      later completes show Failed. */
  lemma {:induction false} ALostRecordFailsACompletedRun(t: Tracker, s: nat, n: nat)
    requires s < n
    ensures var polls := [Record(Starting, false, n, Pending), NoRecord(false),
                          Record(Running, true, n, Pending), Record(Idle, false, n, Completed)];
            PolledAll(StartRequested(t, s), polls).attempt.phase.SessionFailed?
  {
    var polls := [Record(Starting, false, n, Pending), NoRecord(false),
                  Record(Running, true, n, Pending), Record(Idle, false, n, Completed)];
    NormalEndShowsIdleExactlyWhen(t, s, n, [], polls);
    assert PolledAll(StartRequested(t, s), []) == StartRequested(t, s);
    assert StretchStart(polls, 1) == 0 && Asks(polls[0]);
    assert FailsAt(0, polls, 1);
  }
}
