/** From the engine's run to the phase on screen: the record a run leaves behind, read through
    the service by the host's polls. */
module RunsOnScreen {
  import opened RunStatus
  import opened SessionTracker
  import opened SessionHistory
  import Engine = EngineLifecycle

  /** The poll shows the engine's record as it was after the first `k` moves. The service
      passes on its own state and, under its own session id, the record's reason: the one it
      reads now, or the one it copied when the run returned. */
  ghost predicate Shows(p: Poll, s: Engine.State, moves: seq<Engine.Move>, k: nat)
    requires forall i :: 0 <= i < |moves| ==> moves[i].t < |s.threads|
  {
    && p.Record? && k <= |moves|
    && p.session == Engine.Run(s, moves[..k]).g.book.record.session
    && p.reason == Engine.Run(s, moves[..k]).g.book.record.reason
  }

  lemma {:induction false} NeverConfiguresBefore(s: Engine.State, moves: seq<Engine.Move>, k: nat)
    requires (forall i :: 0 <= i < |moves| ==> moves[i].t < |s.threads|) && k <= |moves|
    requires Engine.NeverConfigures(s, moves)
    ensures Engine.NeverConfigures(s, moves[..k])
  {
    if k == |moves| {
      assert moves[..k] == moves;
    } else {
      NeverConfiguresBefore(s, moves[..|moves| - 1], k);
      assert moves[..|moves| - 1][..k] == moves[..k];
    }
  }

  lemma {:induction false} FailedRunIsShown(
    s: Engine.State, moves: seq<Engine.Move>, t: nat, more: seq<Engine.Move>, p: Poll, k: nat)
    requires Engine.Initial(s) && forall i :: 0 <= i < |moves| ==> moves[i].t < |s.threads|
    requires t < |s.threads| && Engine.Run(s, moves).threads[t].RunCollected?
    requires forall i :: 0 <= i < |more| ==> more[i].t < |s.threads|
    requires Engine.NeverConfigures(Engine.Run(s, moves), more)
    requires !Engine.Run(s, moves).threads[t].stopped && Engine.Run(s, moves).threads[t].code != 0
    requires Shows(p, Engine.Run(s, moves), more, k)
    ensures IsOf(p, Engine.Run(s, moves).threads[t].run.session) && p.reason.Failed?
  {
    NeverConfiguresBefore(Engine.Run(s, moves), more, k);
    Engine.RunResultIsRetained(s, moves, t, more[..k]);
  }

  /** A run that ends with a nonzero code and no stop surfaces however short it was. Take any
      interleaving of the engine's threads in which such a run's result is collected, and any
      continuation of it without a configure; any start, any polls before, and then polls that
      show the engine's record at any moments of the continuation, some of them lost. The first
      idle one shows Failed, and so does every later one, and every lost one after a shown
      one, until a new start, a dismissal or a newer session. */
  lemma {:induction false} ShortFailuresSurface(
    s: Engine.State, moves: seq<Engine.Move>, t: nat, more: seq<Engine.Move>,
    tracker: Tracker, last: nat, before: seq<Poll>, polls: seq<Poll>, when: seq<nat>, j: nat)
    requires Engine.Initial(s) && forall i :: 0 <= i < |moves| ==> moves[i].t < |s.threads|
    requires t < |s.threads| && Engine.Run(s, moves).threads[t].RunCollected?
    requires forall i :: 0 <= i < |more| ==> more[i].t < |s.threads|
    requires Engine.NeverConfigures(Engine.Run(s, moves), more)
    requires !Engine.Run(s, moves).threads[t].stopped && Engine.Run(s, moves).threads[t].code != 0
    requires last < Engine.Run(s, moves).threads[t].run.session
    requires forall i :: 0 <= i < |before| ==> NotNewer(before[i], Engine.Run(s, moves).threads[t].run.session)
    requires |when| == |polls| && j < |polls|
    requires forall i :: 0 <= i < |polls| ==> polls[i].NoRecord? || Shows(polls[i], Engine.Run(s, moves), more, when[i])
    ensures var t0 := PolledAll(StartRequested(tracker, last), before);
            && (polls[j].Record? && polls[j].service.Idle? ==> PolledAll(t0, polls[..j + 1]).attempt.phase.SessionFailed?)
            && (polls[j].NoRecord? && (exists i :: 0 <= i < j && polls[i].Record?) ==>
                  PolledAll(t0, polls[..j + 1]).attempt.phase.SessionFailed?)
  {
    var n := Engine.Run(s, moves).threads[t].run.session;
    var t0 := PolledAll(StartRequested(tracker, last), before);
    PollsKeepListening(StartRequested(tracker, last), n, before);
    forall i | 0 <= i < |polls| && polls[i].Record?
      ensures IsOf(polls[i], n) && polls[i].reason.Failed?
    {
      FailedRunIsShown(s, moves, t, more, polls[i], when[i]);
    }
    FailedRecordsSurface(t0, n, polls, j);
  }
}
