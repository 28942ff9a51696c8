/** The Android host that feeds the tracker: status polls, starts and dismissals, the
    published phase with its failure text, and the session-initialized signal. */
module DecoderHost {
  import opened RunStatus
  import opened SessionTracker

  /** The service's lifecycle record, or nothing when it could not be read. */
  datatype Status =
    | NoStatus
    | Status(session: nat, service: Service, reason: RunReason, initialized: bool, lastError: string)

  function SessionOf(status: Status): nat {
    if status.NoStatus? then 0 else status.session
  }

  function ServiceOf(status: Status): Service {
    if status.NoStatus? then Idle else status.service
  }

  datatype Signal = SessionStateChanged | SessionInitialized(session: nat)

  datatype Host = Host(primed: bool, initializedSession: nat, adoptedIdleSession: nat,
                       tracker: Tracker, publishedPhase: Phase, failure: string, signals: seq<Signal>)

  const NEW_HOST := Host(false, 0, 0, FRESH, SessionIdle, "", [])
  const DEFAULT_FAILURE := "The decoder could not be started. Check the input settings."
  const STILL_STOPPING := "A previous session is still stopping"

  function FailureText(phase: Phase, reason: string, shown: string, serviceText: string): string {
    if !phase.SessionFailed? then reason
    else if reason != "" then reason
    else if shown != "" then shown
    else if serviceText != "" then serviceText
    else DEFAULT_FAILURE
  }

  function PhaseSet(h: Host, phase: Phase, reason: string, serviceText: string): Host {
    var text := FailureText(phase, reason, h.failure, serviceText);
    if phase == h.publishedPhase && text == h.failure then h
    else h.(publishedPhase := phase, failure := text, signals := h.signals + [SessionStateChanged])
  }

  function TrackerPolled(t: Tracker, status: Status, running: bool): Tracker {
    if status.NoStatus? then t.(attempt := ServicePolled(t.attempt, Idle, running))
    else RecordPolled(t, status.service, running, status.session, status.reason)
  }

  /** The first poll fixes what counts as already initialized and already adopted. */
  function Primed(h: Host, status: Status): Host {
    if h.primed then h
    else h.(initializedSession := SessionOf(status),
            adoptedIdleSession := if ServiceOf(status).Idle? then SessionOf(status) else h.adoptedIdleSession)
  }

  function InitializationSignalled(h: Host, firstPoll: bool, status: Status): Host {
    if !firstPoll && status.Status? && status.initialized && status.session > h.initializedSession
    then h.(initializedSession := status.session, signals := h.signals + [SessionInitialized(status.session)])
    else h
  }

  function Applied(h: Host, status: Status, running: bool, serviceText: string): Host {
    var h1 := Primed(h, status);
    var tracker := TrackerPolled(h1.tracker, status, running);
    var h2 := InitializationSignalled(h1.(tracker := tracker), !h.primed, status);
    var adoptedIdle := SessionOf(status) != 0 && SessionOf(status) == h2.adoptedIdleSession;
    var reason := if !h.primed || adoptedIdle || status.NoStatus? then "" else status.lastError;
    PhaseSet(h2, tracker.attempt.phase, reason, serviceText).(primed := true)
  }

  /** What happens after the service accepts: the hand-over, or a host-side failure. */
  datatype Handover = HandedOver | NotHandedOver(why: string)

  function Started(h: Host, record: Status, handover: Handover, serviceText: string): Host {
    if !StartIsAccepted(ServiceOf(record)) then PhaseSet(h, h.tracker.attempt.phase, STILL_STOPPING, serviceText)
    else
      var tracker := StartRequested(h.tracker, SessionOf(record));
      var h1 := h.(initializedSession := SessionOf(record));
      match handover
      case HandedOver => PhaseSet(h1.(tracker := tracker), SessionStarting, "", serviceText)
      case NotHandedOver(why) => PhaseSet(h1.(tracker := StartFailed(tracker)), SessionFailed, why, serviceText)
  }

  function FailureAcknowledged(h: Host, status: Status, serviceText: string): Host {
    if status.NoStatus? || !DismissIsAccepted(h.tracker, status.service) then h
    else
      var h1 := h.(tracker := Dismissed(h.tracker, status.session, status.service), adoptedIdleSession := status.session);
      PhaseSet(h1, SessionIdle, "", serviceText)
  }

  class DecoderHostAndroid {
    const tracker: SessionPhaseTracker
    var primed: bool
    var initializedSession: nat
    var adoptedIdleSession: nat
    var publishedPhase: Phase
    var failure: string
    var signals: seq<Signal>

    function State(): Host
      reads this, tracker
    {
      Host(primed, initializedSession, adoptedIdleSession, tracker.State(), publishedPhase, failure, signals)
    }

    constructor ()
      ensures State() == NEW_HOST && fresh(tracker)
    {
      tracker := new SessionPhaseTracker();
      primed, initializedSession, adoptedIdleSession := false, 0, 0;
      publishedPhase, failure, signals := SessionIdle, "", [];
    }

    method SetSessionPhase(phase: Phase, reason: string, serviceText: string)
      modifies this`publishedPhase, this`failure, this`signals
      ensures State() == PhaseSet(old(State()), phase, reason, serviceText)
    {
      var text := reason;
      if phase.SessionFailed? {
        text := if reason == "" then failure else reason;
        if text == "" {
          text := serviceText;
        }
        if text == "" {
          text := DEFAULT_FAILURE;
        }
      }
      if phase == publishedPhase && text == failure {
        return;
      }
      publishedPhase := phase;
      failure := text;
      signals := signals + [SessionStateChanged];
    }

    method PollTracker(status: Status, running: bool) returns (phase: Phase)
      modifies tracker
      ensures tracker.State() == TrackerPolled(old(tracker.State()), status, running)
      ensures phase == tracker.phase
    {
      if status.NoStatus? {
        phase := tracker.UpdateService(Idle, running);
      } else {
        phase := tracker.Update(status.service, running, status.session, status.reason);
      }
    }

    method ApplyLifecycleStatus(status: Status, running: bool, serviceText: string)
      modifies this, tracker
      ensures State() == Applied(old(State()), status, running, serviceText)
    {
      var firstPoll := !primed;
      var session := SessionOf(status);
      if firstPoll {
        initializedSession := session;
        if ServiceOf(status).Idle? {
          adoptedIdleSession := session;
        }
      }
      assert State() == Primed(old(State()), status);
      var phase := PollTracker(status, running);
      var adoptedIdle := session != 0 && session == adoptedIdleSession;
      if !firstPoll && status.Status? && status.initialized && session > initializedSession {
        initializedSession := session;
        signals := signals + [SessionInitialized(session)];
      }
      SetSessionPhase(phase, if firstPoll || adoptedIdle || status.NoStatus? then "" else status.lastError, serviceText);
      primed := true;
    }

    method Start(primer: Status, primerRunning: bool, record: Status, handover: Handover, serviceText: string) returns (ok: bool)
      modifies this, tracker
      ensures var before := old(if primed then State() else Applied(State(), primer, primerRunning, serviceText));
              State() == Started(before, record, handover, serviceText)
      ensures ok <==> StartIsAccepted(ServiceOf(record)) && handover.HandedOver?
    {
      if !primed {
        ApplyLifecycleStatus(primer, primerRunning, serviceText);
      }
      var accepted := tracker.NoteStartRequested(SessionOf(record), ServiceOf(record));
      if !accepted {
        SetSessionPhase(tracker.phase, STILL_STOPPING, serviceText);
        return false;
      }
      initializedSession := SessionOf(record);
      if handover.NotHandedOver? {
        tracker.NoteStartFailed();
        SetSessionPhase(tracker.phase, handover.why, serviceText);
        return false;
      }
      SetSessionPhase(tracker.phase, "", serviceText);
      ok := true;
    }

    method AcknowledgeFailure(status: Status, serviceText: string) returns (dismissed: bool)
      modifies this, tracker
      ensures State() == FailureAcknowledged(old(State()), status, serviceText)
      ensures dismissed <==> old(status.Status? && DismissIsAccepted(tracker.State(), status.service))
    {
      if status.NoStatus? {
        return false;
      }
      dismissed := tracker.AcknowledgeFailure(status.session, status.service);
      if dismissed {
        adoptedIdleSession := status.session;
        SetSessionPhase(SessionIdle, "", serviceText);
      }
    }
  }

  // --- Whole histories ------------------------------------------------------------------

  datatype Event =
    | Poll(status: Status, running: bool, serviceText: string)
    | Start(record: Status, handover: Handover, serviceText: string)
    | Dismiss(status: Status, serviceText: string)

  function Happened(h: Host, e: Event): Host {
    match e
    case Poll(status, running, serviceText) => Applied(h, status, running, serviceText)
    case Start(record, handover, serviceText) => Started(h, record, handover, serviceText)
    case Dismiss(status, serviceText) => FailureAcknowledged(h, status, serviceText)
  }

  function AllHappened(events: seq<Event>): Host {
    if |events| == 0 then NEW_HOST else Happened(AllHappened(events[..|events| - 1]), events[|events| - 1])
  }

  /** The session id an event shows the host; a lost record shows zero. */
  function IdOf(e: Event): nat {
    match e
    case Poll(status, _, _) => SessionOf(status)
    case Start(record, _, _) => SessionOf(record)
    case Dismiss(status, _) => SessionOf(status)
  }

  /** The ids announced so far, in order. */
  function Announced(signals: seq<Signal>): seq<nat> {
    if |signals| == 0 then []
    else
      var last := signals[|signals| - 1];
      Announced(signals[..|signals| - 1]) + (if last.SessionInitialized? then [last.session] else [])
  }

  ghost predicate StrictlyIncreasing(ids: seq<nat>) {
    forall i, j :: 0 <= i < j < |ids| ==> ids[i] < ids[j]
  }

  lemma {:induction false} AnnouncedAppend(signals: seq<Signal>, s: Signal)
    ensures Announced(signals + [s]) == Announced(signals) + (if s.SessionInitialized? then [s.session] else [])
  {
    assert (signals + [s])[..|signals|] == signals;
  }

  lemma {:induction false} PhaseSetAnnouncesNothing(h: Host, phase: Phase, reason: string, serviceText: string)
    ensures var h' := PhaseSet(h, phase, reason, serviceText);
            Announced(h'.signals) == Announced(h.signals) && h'.initializedSession == h.initializedSession && h'.primed == h.primed
  {
    AnnouncedAppend(h.signals, SessionStateChanged);
  }

  predicate Emits(h: Host, e: Event) {
    e.Poll? && h.primed && e.status.Status? && e.status.initialized && e.status.session > h.initializedSession
  }

  /** The newest id the host knows after an event. */
  function Newest(h: Host, e: Event): nat {
    match e
    case Poll(status, _, _) => if !h.primed || Emits(h, e) then SessionOf(status) else h.initializedSession
    case Start(record, _, _) => if StartIsAccepted(ServiceOf(record)) then SessionOf(record) else h.initializedSession
    case Dismiss(_, _) => h.initializedSession
  }

  ghost predicate Announces(h: Host, e: Event, h': Host) {
    && Announced(h'.signals) == Announced(h.signals) + (if Emits(h, e) then [e.status.session] else [])
    && h'.initializedSession == Newest(h, e)
    && h'.primed == (h.primed || e.Poll?)
  }

  lemma {:induction false} PollAnnounces(h: Host, e: Event)
    requires e.Poll?
    ensures Announces(h, e, Happened(h, e))
  {
    var status := e.status;
    var h1 := Primed(h, status);
    var tracker := TrackerPolled(h1.tracker, status, e.running);
    var h2 := InitializationSignalled(h1.(tracker := tracker), !h.primed, status);
    if h2.signals != h.signals {
      AnnouncedAppend(h.signals, SessionInitialized(status.session));
    }
    assert Announces(h, e, h2.(primed := true));
    var adoptedIdle := SessionOf(status) != 0 && SessionOf(status) == h2.adoptedIdleSession;
    var reason := if !h.primed || adoptedIdle || status.NoStatus? then "" else status.lastError;
    PhaseSetAnnouncesNothing(h2, tracker.attempt.phase, reason, e.serviceText);
  }

  lemma {:induction false} StartAnnounces(h: Host, e: Event)
    requires e.Start?
    ensures Announces(h, e, Happened(h, e))
  {
    if !StartIsAccepted(ServiceOf(e.record)) {
      PhaseSetAnnouncesNothing(h, h.tracker.attempt.phase, STILL_STOPPING, e.serviceText);
    } else {
      var tracker := StartRequested(h.tracker, SessionOf(e.record));
      var h1 := h.(initializedSession := SessionOf(e.record));
      if e.handover.HandedOver? {
        PhaseSetAnnouncesNothing(h1.(tracker := tracker), SessionStarting, "", e.serviceText);
      } else {
        PhaseSetAnnouncesNothing(h1.(tracker := StartFailed(tracker)), SessionFailed, e.handover.why, e.serviceText);
      }
    }
  }

  /** What one event announces and which id it leaves as the newest known. */
  lemma {:induction false} EventAnnounces(h: Host, e: Event)
    ensures Announces(h, e, Happened(h, e))
  {
    match e
    case Poll(_, _, _) => PollAnnounces(h, e);
    case Start(_, _, _) => StartAnnounces(h, e);
    case Dismiss(status, serviceText) =>
      if status.Status? {
        PhaseSetAnnouncesNothing(
          h.(tracker := Dismissed(h.tracker, status.session, status.service), adoptedIdleSession := status.session),
          SessionIdle, "", serviceText);
      }
  }

  /** The events that can teach the host a session id: a poll that carries a record, and a
      start that the service accepts, which takes over the id its own record shows. */
  predicate Teaches(e: Event) {
    (e.Poll? && e.status.Status?) || (e.Start? && StartIsAccepted(ServiceOf(e.record)))
  }

  /** No accepted start shows an id older than one taught before. Polls may show any ids in
      any order. */
  ghost predicate StartsNeverFallBack(events: seq<Event>) {
    forall i, j :: 0 <= i < j < |events| && Teaches(events[i]) && Teaches(events[j]) && events[j].Start? ==>
      IdOf(events[i]) <= IdOf(events[j])
  }

  /** The newest id known to the host is that of an event that taught one, or that of the first
      poll, which is zero when its record was lost. */
  ghost predicate Learned(id: nat, events: seq<Event>, j: nat)
    requires 0 < j <= |events|
  {
    id == IdOf(events[0]) || exists i :: 0 <= i < j && Teaches(events[i]) && IdOf(events[i]) == id
  }

  /** Every id announced is newer than the one at the first poll and no newer than `newest`. */
  ghost predicate AnnouncedWithin(ids: seq<nat>, first: nat, newest: nat) {
    StrictlyIncreasing(ids) && first <= newest && forall i :: 0 <= i < |ids| ==> first < ids[i] <= newest
  }

  lemma {:induction false} LearnedBefore(id: nat, events: seq<Event>, j: nat)
    requires 0 < j < |events| && events[0].Poll? && StartsNeverFallBack(events) && Learned(id, events, j)
    ensures Learned(id, events, j + 1)
    ensures Teaches(events[j]) && events[j].Start? ==> id <= IdOf(events[j]) && IdOf(events[0]) <= IdOf(events[j])
    ensures Teaches(events[j]) ==> Learned(IdOf(events[j]), events, j + 1)
  {
    assert Teaches(events[0]) || IdOf(events[0]) == 0;
    if id != IdOf(events[0]) {
      var i :| 0 <= i < j && Teaches(events[i]) && IdOf(events[i]) == id;
      assert Learned(id, events, j + 1);
    }
  }

  lemma {:induction false} EventKeepsOrder(events: seq<Event>, j: nat, h: Host)
    requires 0 < j < |events| && events[0].Poll? && StartsNeverFallBack(events) && h.primed
    requires AnnouncedWithin(Announced(h.signals), IdOf(events[0]), h.initializedSession) && Learned(h.initializedSession, events, j)
    ensures var h' := Happened(h, events[j]);
            && h'.primed
            && AnnouncedWithin(Announced(h'.signals), IdOf(events[0]), h'.initializedSession)
            && Learned(h'.initializedSession, events, j + 1)
  {
    var e := events[j];
    EventAnnounces(h, e);
    LearnedBefore(h.initializedSession, events, j);
    WithinNewer(Announced(h.signals), IdOf(events[0]), h.initializedSession, Newest(h, e), Emits(h, e));
  }

  lemma {:induction false} WithinNewer(ids: seq<nat>, first: nat, known: nat, newest: nat, emits: bool)
    requires AnnouncedWithin(ids, first, known) && known <= newest && (emits ==> known < newest)
    ensures AnnouncedWithin(ids + (if emits then [newest] else []), first, newest)
  {
  }

  /** For any history whose first event is a poll, with lost records and ids in any order, in
      which no accepted start falls back to an older id: the announced ids strictly increase, so
      each session is announced at most once, and all are newer than the id at the first poll. */
  lemma {:induction false} InitializedIsAnnouncedOnce(events: seq<Event>)
    requires |events| > 0 && events[0].Poll? && StartsNeverFallBack(events)
    ensures var h := AllHappened(events);
            h.primed && AnnouncedWithin(Announced(h.signals), IdOf(events[0]), h.initializedSession)
  {
    AnnouncedSoFar(events, |events|);
    assert events[..|events|] == events;
  }

  lemma {:induction false} AnnouncedSoFar(events: seq<Event>, j: nat)
    requires 0 < j <= |events| && events[0].Poll? && StartsNeverFallBack(events)
    ensures var h := AllHappened(events[..j]);
            && h.primed
            && AnnouncedWithin(Announced(h.signals), IdOf(events[0]), h.initializedSession)
            && Learned(h.initializedSession, events, j)
  {
    assert events[..j][..j - 1] == events[..j - 1];
    if j == 1 {
      assert AllHappened(events[..1]) == Happened(NEW_HOST, events[0]);
      EventAnnounces(NEW_HOST, events[0]);
      assert Announced(NEW_HOST.signals) == [];
    } else {
      AnnouncedSoFar(events, j - 1);
      EventKeepsOrder(events, j - 1, AllHappened(events[..j - 1]));
    }
  }

  /** Polls of one session, or lost. */
  ghost predicate PollsOf(events: seq<Event>, n: nat) {
    forall i :: 0 <= i < |events| ==> events[i].Poll? && (events[i].status.Status? ==> events[i].status.session == n)
  }

  predicate IsInitialized(e: Event) {
    e.Poll? && e.status.Status? && e.status.initialized
  }

  ghost predicate SaysInitialized(events: seq<Event>) {
    exists i :: 0 <= i < |events| && IsInitialized(events[i])
  }

  /** The host has announced session `n`, or it has not; and it knows it, or it does not. */
  ghost predicate Stands(h: Host, n: nat, announced: bool, known: bool) {
    && h.primed && Announced(h.signals) == (if announced then [n] else [])
    && h.initializedSession == (if known then n else 0)
  }

  lemma {:induction false} PollOfPresentSession(h: Host, e: Event, n: nat, announced: bool, known: bool)
    requires n > 0 && e.Poll? && (e.status.Status? ==> e.status.session == n)
    requires Stands(h, n, announced, known) && (announced ==> known)
    ensures var learns := IsInitialized(e) && !known;
            Stands(Happened(h, e), n, announced || learns, known || learns)
  {
    EventAnnounces(h, e);
  }

  /** A session that is there from the first poll on is announced if and only if that poll lost
      its record and some poll says initialized: with a lost first poll the host does not know
      that the session is old. */
  lemma {:induction false} PresentSessionIsAnnouncedExactlyWhen(events: seq<Event>, n: nat)
    requires |events| > 0 && n > 0 && PollsOf(events, n)
    ensures var announced := events[0].status.NoStatus? && SaysInitialized(events);
            Stands(AllHappened(events), n, announced, announced || events[0].status.Status?)
  {
    var prior, e := events[..|events| - 1], events[|events| - 1];
    assert events == prior + [e];
    assert SaysInitialized(events) <==> SaysInitialized(prior) || IsInitialized(e) by {
      assert IsInitialized(e) ==> IsInitialized(events[|events| - 1]);
      assert forall i :: 0 <= i < |prior| ==> events[i] == prior[i];
    }
    if |prior| == 0 {
      EventAnnounces(NEW_HOST, e);
      assert Announced(NEW_HOST.signals) == [];
    } else {
      PresentSessionIsAnnouncedExactlyWhen(prior, n);
      var announced := events[0].status.NoStatus? && SaysInitialized(prior);
      PollOfPresentSession(AllHappened(prior), e, n, announced, announced || events[0].status.Status?);
    }
  }

  /** The condition on starts is exact: once a start has been accepted, a later poll can announce
      an id already known if and only if the start's own record showed an older id (as a lost
      record does). */
  lemma {:induction false} ReannouncedExactlyAfterOlderStart(h: Host, record: Status, handover: Handover, serviceText: string)
    requires h.primed && StartIsAccepted(ServiceOf(record))
    ensures (exists status: Status, running: bool ::
               var h' := Started(h, record, handover, serviceText);
               && Announced(Applied(h', status, running, serviceText).signals) != Announced(h'.signals)
               && SessionOf(status) <= h.initializedSession)
            <==> SessionOf(record) < h.initializedSession
  {
    var h' := Started(h, record, handover, serviceText);
    EventAnnounces(h, Start(record, handover, serviceText));
    forall status: Status, running: bool
      ensures Announced(Applied(h', status, running, serviceText).signals) != Announced(h'.signals)
              ==> SessionOf(status) > SessionOf(record)
    {
      EventAnnounces(h', Poll(status, running, serviceText));
    }
    if SessionOf(record) < h.initializedSession {
      var again := Status(h.initializedSession, Running, Pending, true, "");
      EventAnnounces(h', Poll(again, true, serviceText));
      assert SessionOf(again) <= h.initializedSession
             && Announced(Applied(h', again, true, serviceText).signals) != Announced(h'.signals);
    }
  }

  ghost predicate Explained(h: Host) {
    && h.publishedPhase == h.tracker.attempt.phase
    && (h.publishedPhase.SessionFailed? ==> h.failure != "")
  }

  lemma {:induction false} PhaseSetExplains(h: Host, phase: Phase, reason: string, serviceText: string)
    requires phase == h.tracker.attempt.phase
    ensures Explained(PhaseSet(h, phase, reason, serviceText))
  {
  }

  lemma {:induction false} EventExplains(h: Host, e: Event)
    requires Explained(h)
    ensures Explained(Happened(h, e))
  {
    match e
    case Poll(status, running, serviceText) =>
      var h1 := Primed(h, status);
      var tracker := TrackerPolled(h1.tracker, status, running);
      var h2 := InitializationSignalled(h1.(tracker := tracker), !h.primed, status);
      var adoptedIdle := SessionOf(status) != 0 && SessionOf(status) == h2.adoptedIdleSession;
      var reason := if !h.primed || adoptedIdle || status.NoStatus? then "" else status.lastError;
      PhaseSetExplains(h2, tracker.attempt.phase, reason, serviceText);
    case Start(record, handover, serviceText) =>
      var tracker := StartRequested(h.tracker, SessionOf(record));
      PhaseSetExplains(h, h.tracker.attempt.phase, STILL_STOPPING, serviceText);
      var h1 := h.(initializedSession := SessionOf(record), tracker := tracker);
      PhaseSetExplains(h1, SessionStarting, "", serviceText);
      if handover.NotHandedOver? {
        PhaseSetExplains(h1.(tracker := StartFailed(tracker)), SessionFailed, handover.why, serviceText);
      }
    case Dismiss(status, serviceText) =>
      if status.Status? && DismissIsAccepted(h.tracker, status.service) {
        var h1 := h.(tracker := Dismissed(h.tracker, status.session, status.service), adoptedIdleSession := status.session);
        PhaseSetExplains(h1, SessionIdle, "", serviceText);
      }
  }

  /** In every history the phase on screen is the tracker's, and a failure always comes
      with a reason. */
  lemma {:induction false} FailuresAreExplained(events: seq<Event>)
    ensures Explained(AllHappened(events))
  {
    if |events| > 0 {
      FailuresAreExplained(events[..|events| - 1]);
      EventExplains(AllHappened(events[..|events| - 1]), events[|events| - 1]);
    }
  }
}
