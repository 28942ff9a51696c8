/** What the host keeps on screen: which text goes with a phase, how long a failed hand-over is
    shown, and that an adopted or dismissed session stays silent. */
module HostPromises {
  import opened RunStatus
  import opened SessionTracker
  import opened DecoderHost
  import opened TrackerPromises
  import Tracking = SessionHistory

  // --- Texts ----------------------------------------------------------------------------

  /** The first text of a list that says something. */
  function FirstSaid(texts: seq<string>): string
    decreases |texts|
  {
    if |texts| == 0 then "" else if texts[0] != "" then texts[0] else FirstSaid(texts[1..])
  }

  lemma {:induction false} FirstOfFour(a: string, b: string, c: string, d: string)
    ensures FirstSaid([a, b, c, d]) == if a != "" then a else if b != "" then b else if c != "" then c else d
  {
    assert [a, b, c, d][1..] == [b, c, d] && [b, c, d][1..] == [c, d] && [c, d][1..] == [d] && [d][1..] == [];
    assert FirstSaid([d]) == d;
    assert FirstSaid([c, d]) == if c != "" then c else d;
    assert FirstSaid([b, c, d]) == if b != "" then b else FirstSaid([c, d]);
  }

  /** With a failure goes the reason the host has, or else the text already shown, or else the
      service's, or else the default; with any other phase the reason and nothing else. The change
      is signalled once, exactly when the phase or the text is another. */
  lemma {:induction false} TextGoesWithPhase(h: Host, phase: Phase, reason: string, serviceText: string)
    ensures var h' := PhaseSet(h, phase, reason, serviceText);
            && h'.publishedPhase == phase
            && h'.failure == (if phase.SessionFailed? then FirstSaid([reason, h.failure, serviceText, DEFAULT_FAILURE]) else reason)
            && h'.signals == h.signals + (if h'.publishedPhase == h.publishedPhase && h'.failure == h.failure then [] else [SessionStateChanged])
            && h'.tracker == h.tracker && h'.adoptedIdleSession == h.adoptedIdleSession
  {
    FirstOfFour(reason, h.failure, serviceText, DEFAULT_FAILURE);
  }

  /** The record's error is told at a poll after the first whose session is not the adopted one. */
  predicate Told(h: Host, status: Status) {
    h.primed && status.Status? && (status.session == 0 || status.session != h.adoptedIdleSession)
  }

  /** One poll: the tracker's phase, and the record's error exactly when it is told; a failure about
      which nothing is told keeps the text it has. The first poll adopts an idle session. */
  lemma {:induction false} PollShows(h: Host, status: Status, running: bool, serviceText: string)
    ensures var h' := Applied(h, status, running, serviceText);
            var error := if Told(h, status) then status.lastError else "";
            && h'.primed
            && h'.adoptedIdleSession == (if !h.primed && ServiceOf(status).Idle? then SessionOf(status) else h.adoptedIdleSession)
            && h'.tracker == TrackerPolled(h.tracker, status, running)
            && h'.publishedPhase == h'.tracker.attempt.phase
            && h'.failure == (if h'.publishedPhase.SessionFailed? then FirstSaid([error, h.failure, serviceText, DEFAULT_FAILURE]) else error)
  {
    var tracker := TrackerPolled(h.tracker, status, running);
    var h2 := InitializationSignalled(Primed(h, status).(tracker := tracker), !h.primed, status);
    TextGoesWithPhase(h2, tracker.attempt.phase, if Told(h, status) then status.lastError else "", serviceText);
  }

  /** A start: refused while the service is busy, with the text that says so and everything else as
      it was; otherwise shown as starting without a text, or as failed with the reason. */
  lemma {:induction false} StartShows(h: Host, record: Status, handover: Handover, serviceText: string)
    ensures var h' := Started(h, record, handover, serviceText);
            if record.Status? && record.service in {Starting, Running, Stopping, Unknown} then
              && h'.tracker == h.tracker && h'.initializedSession == h.initializedSession
              && h'.publishedPhase == h.tracker.attempt.phase && h'.failure == "A previous session is still stopping"
            else
              && h'.initializedSession == SessionOf(record)
              && (handover.HandedOver? ==> h'.publishedPhase.SessionStarting? && h'.failure == "" && h'.tracker.attempt.phase.SessionStarting?)
              && (handover.NotHandedOver? && handover.why != "" ==> h'.publishedPhase.SessionFailed? && h'.failure == handover.why)
  {
  }

  function Ticked(status: Status, running: bool): Tracking.Poll {
    if status.NoStatus? then Tracking.NoRecord(running)
    else Tracking.Record(status.service, running, status.session, status.reason)
  }

  lemma {:induction false} TrackerTicks(t: Tracker, status: Status, running: bool)
    ensures TrackerPolled(t, status, running) == Tracking.Happened(t, Tracking.Tick(Ticked(status, running)))
  {
  }

  // --- A hand-over that fails -----------------------------------------------------------

  /** An event after a failed hand-over at session `s` that does not end the failure. */
  predicate LeavesItFailed(e: Event, s: nat) {
    match e
    case Poll(status, _, _) => status.Status? ==> status.session <= s
    case Start(record, _, _) => record.Status? && record.service in {Starting, Running, Stopping, Unknown}
    case Dismiss(status, _) => status.Status? ==> !status.service.Idle?
  }

  function AllHappenedTo(h: Host, events: seq<Event>): Host {
    if |events| == 0 then h else Happened(AllHappenedTo(h, events[..|events| - 1]), events[|events| - 1])
  }

  ghost predicate ShowsFailure(h: Host, s: nat) {
    h.primed && HandoverFailureHeld(h.tracker, s) && h.publishedPhase.SessionFailed? && h.failure != ""
  }

  lemma {:induction false} EventLeavesFailure(h: Host, s: nat, e: Event)
    requires ShowsFailure(h, s) && LeavesItFailed(e, s)
    ensures ShowsFailure(Happened(h, e), s)
  {
    match e
    case Poll(status, running, serviceText) =>
      TrackerTicks(h.tracker, status, running);
      FailureIsLeft(h.tracker, s, Tracking.Tick(Ticked(status, running)));
      PollShows(h, status, running, serviceText);
      FirstOfFour(if Told(h, status) then status.lastError else "", h.failure, serviceText, DEFAULT_FAILURE);
    case Start(record, _, serviceText) => TextGoesWithPhase(h, h.tracker.attempt.phase, STILL_STOPPING, serviceText);
    case Dismiss(_, _) =>
  }

  lemma {:induction false} HandoverFailureBegins(h: Host, record: Status, why: string, serviceText: string)
    requires h.primed && (record.NoStatus? || record.service in {Missing, Empty, Idle})
    ensures var h' := Started(h, record, NotHandedOver(why), serviceText);
            && ShowsFailure(h', SessionOf(record))
            && h'.failure == FirstSaid([why, h.failure, serviceText, DEFAULT_FAILURE])
            && h'.adoptedIdleSession == h.adoptedIdleSession
  {
    var tracker := StartFailed(StartRequested(h.tracker, SessionOf(record)));
    TextGoesWithPhase(h.(initializedSession := SessionOf(record), tracker := tracker), SessionFailed, why, serviceText);
    FirstOfFour(why, h.failure, serviceText, DEFAULT_FAILURE);
  }

  /** A start that the service would take but that cannot be handed over is shown as failed, with a
      text, and stays so over every history up to an accepted start, an accepted dismissal or a
      newer session. */
  lemma {:induction false} FailedHandoverStaysOnScreen(h: Host, record: Status, why: string, serviceText: string, events: seq<Event>)
    requires h.primed && (record.NoStatus? || record.service in {Missing, Empty, Idle})
    requires forall i :: 0 <= i < |events| ==> LeavesItFailed(events[i], SessionOf(record))
    ensures var h' := AllHappenedTo(Started(h, record, NotHandedOver(why), serviceText), events);
            ShowsFailure(h', SessionOf(record)) && h'.publishedPhase.SessionFailed? && h'.failure != ""
  {
    if |events| == 0 {
      HandoverFailureBegins(h, record, why, serviceText);
    } else {
      FailedHandoverStaysOnScreen(h, record, why, serviceText, events[..|events| - 1]);
      EventLeavesFailure(AllHappenedTo(Started(h, record, NotHandedOver(why), serviceText), events[..|events| - 1]),
                         SessionOf(record), events[|events| - 1]);
    }
  }

  /** A poll that tells no error. */
  predicate Silent(h: Host, e: Event) {
    e.Poll? && (Told(h, e.status) ==> e.status.lastError == "")
  }

  /** As long as polls tell no error, the text stays the one given with the failure. */
  lemma {:induction false} HandoverTextStays(h: Host, record: Status, why: string, serviceText: string, events: seq<Event>)
    requires h.primed && (record.NoStatus? || record.service in {Missing, Empty, Idle})
    requires forall i :: 0 <= i < |events| ==> LeavesItFailed(events[i], SessionOf(record)) && Silent(h, events[i])
    ensures var h' := AllHappenedTo(Started(h, record, NotHandedOver(why), serviceText), events);
            && h'.failure == FirstSaid([why, h.failure, serviceText, DEFAULT_FAILURE])
            && h'.adoptedIdleSession == h.adoptedIdleSession
  {
    if |events| == 0 {
      HandoverFailureBegins(h, record, why, serviceText);
    } else {
      var prior, e := events[..|events| - 1], events[|events| - 1];
      HandoverTextStays(h, record, why, serviceText, prior);
      FailedHandoverStaysOnScreen(h, record, why, serviceText, prior);
      var before := AllHappenedTo(Started(h, record, NotHandedOver(why), serviceText), prior);
      EventLeavesFailure(before, SessionOf(record), e);
      PollShows(before, e.status, e.running, e.serviceText);
      FirstOfFour("", before.failure, e.serviceText, DEFAULT_FAILURE);
    }
  }

  // --- Adopted and dismissed sessions ---------------------------------------------------

  /** Nothing is going on, and session `s` is known to be over. */
  ghost predicate Silenced(h: Host, s: nat) {
    h.primed && h.adoptedIdleSession == s && AtRest(h.tracker, s) && h.publishedPhase.SessionIdle? && h.failure == ""
  }

  predicate PollOfSilenced(e: Event, s: nat) {
    && e.Poll?
    && (e.status.Status? ==> e.status.session == s && e.status.service in {Missing, Empty, Idle, Unknown})
  }

  lemma {:induction false} SilenceLasts(h: Host, s: nat, events: seq<Event>)
    requires s != 0 && Silenced(h, s)
    requires forall i :: 0 <= i < |events| ==> PollOfSilenced(events[i], s)
    ensures Silenced(AllHappenedTo(h, events), s)
  {
    if |events| > 0 {
      var e := events[|events| - 1];
      SilenceLasts(h, s, events[..|events| - 1]);
      var before := AllHappenedTo(h, events[..|events| - 1]);
      TrackerTicks(before.tracker, e.status, e.running);
      RestLasts(before.tracker, s, Ticked(e.status, e.running));
      PollShows(before, e.status, e.running, e.serviceText);
    }
  }

  /** A dismissed failure is gone for good: whatever error and reason the records of its session go
      on carrying, the host shows Idle and no text until a start or a busy service. */
  lemma {:induction false} DismissedFailureStaysGone(h: Host, status: Status, serviceText: string, events: seq<Event>)
    requires h.primed && status.Status? && status.session != 0
    requires h.tracker.attempt.phase.SessionFailed? && status.service.Idle?
    requires forall i :: 0 <= i < |events| ==> PollOfSilenced(events[i], status.session)
    ensures Silenced(AllHappenedTo(FailureAcknowledged(h, status, serviceText), events), status.session)
  {
    var tracker := Dismissed(h.tracker, status.session, status.service);
    TextGoesWithPhase(h.(tracker := tracker, adoptedIdleSession := status.session), SessionIdle, "", serviceText);
    SilenceLasts(FailureAcknowledged(h, status, serviceText), status.session, events);
  }

  /** A session that is over before the host's first poll is never shown, failed or not. */
  lemma {:induction false} AnOldFailureIsNotShown(first: Status, running: bool, serviceText: string, events: seq<Event>)
    requires first.Status? && first.session != 0 && first.service.Idle?
    requires forall i :: 0 <= i < |events| ==> PollOfSilenced(events[i], first.session)
    ensures Silenced(AllHappenedTo(Applied(NEW_HOST, first, running, serviceText), events), first.session)
  {
    PollShows(NEW_HOST, first, running, serviceText);
    TrackerTicks(FRESH, first, running);
    SilenceLasts(Applied(NEW_HOST, first, running, serviceText), first.session, events);
  }
}
