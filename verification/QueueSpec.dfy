/** The command queue as a plain list: what each operation under the queue lock does to
    the pending commands, the session record and the two retained results. */
module QueueSpec {
  import opened Commands
  import opened Results

  const LIMIT := 127  // a full ring keeps one slot free

  datatype SubmitStatus = Rejected | Queued | Coalesced

  datatype Retained = Retained(exported: ExportResult, keys: KeyResult)

  datatype Queue = Queue(pending: seq<Command>, open: bool, generation: nat, retained: Retained)

  ghost predicate Wellformed(q: Queue, dataMax: nat) {
    && |q.pending| <= LIMIT
    && (forall i :: 0 <= i < |q.pending| ==> WellStored(q.pending[i], dataMax))
    && (!q.open ==> q.pending == [])
    && (q.open ==> q.generation != 0)
    && q.generation <= U64_MAX
  }

  /** Publishing for a command discarded without being run. */
  function Disposed(r: Retained, c: Command): Retained
    requires c.n <= |c.data|
  {
    Retained(ExportReport(r.exported, c, APPLY_FAILED), KeyReport(r.keys, c, KEY_CANCELLED))
  }

  function AllDisposed(r: Retained, cmds: seq<Command>): Retained
    requires forall i :: 0 <= i < |cmds| ==> cmds[i].n <= |cmds[i].data|
    decreases |cmds|
  {
    if |cmds| == 0 then r else AllDisposed(Disposed(r, cmds[0]), cmds[1..])
  }

  predicate Overwrites(pending: seq<Command>, c: Command) {
    IsCoalescible(c.id) && |pending| > 0 && pending[|pending| - 1].id == c.id
  }

  /** The unbounded queue: a setter replaces the same setter at the tail, anything else
      is appended. */
  function Extended(pending: seq<Command>, c: Command): seq<Command> {
    if Overwrites(pending, c) then pending[..|pending| - 1] + [c] else pending + [c]
  }

  function Newest(pending: seq<Command>): (r: seq<Command>)
    ensures |r| <= LIMIT
  {
    if |pending| <= LIMIT then pending else pending[|pending| - LIMIT..]
  }

  predicate Evicts(q: Queue, c: Command) {
    q.open && !Overwrites(q.pending, c) && |q.pending| >= LIMIT
  }

  function SubmitResult(q: Queue, c: Command): SubmitStatus {
    if !q.open then Rejected else if Overwrites(q.pending, c) then Coalesced else Queued
  }

  ghost function Submitted(dataMax: nat, q: Queue, c: Command): Queue
    requires Wellformed(q, dataMax)
  {
    if !q.open then q
    else q.(pending := Newest(Extended(q.pending, c)),
            retained := if Evicts(q, c) then Disposed(q.retained, q.pending[0]) else q.retained)
  }

  function Popped(q: Queue): Queue
    requires |q.pending| > 0
  {
    q.(pending := q.pending[1..])
  }

  ghost function SessionEdge(dataMax: nat, q: Queue, open: bool): Queue
    requires Wellformed(q, dataMax)
  {
    Queue([], open, if open then NextSequence(q.generation) else q.generation, AllDisposed(q.retained, q.pending))
  }

  function ReportedGeneration(q: Queue): nat {
    if q.open then q.generation else 0
  }

  /** Every operation keeps the list well formed, so a closed session is always empty
      and the reported generation is zero exactly when the session is closed. */
  lemma {:induction false} OperationsKeepWellformed(dataMax: nat, q: Queue, c: Command, open: bool)
    requires Wellformed(q, dataMax) && WellStored(c, dataMax)
    ensures Wellformed(Submitted(dataMax, q, c), dataMax)
    ensures |q.pending| > 0 ==> Wellformed(Popped(q), dataMax)
    ensures Wellformed(SessionEdge(dataMax, q, open), dataMax)
    ensures ReportedGeneration(q) == 0 <==> !q.open
  {
  }

  /** The status of a submission tells what happened to the list: rejected, and nothing changed;
      coalesced, and the newest command alone is another; queued, and the new one is last, the
      oldest of a full queue gone with the results it owed. */
  lemma {:induction false} StatusTellsWhatHappened(dataMax: nat, q: Queue, c: Command)
    requires Wellformed(q, dataMax)
    ensures var n, q', status := |q.pending|, Submitted(dataMax, q, c), SubmitResult(q, c);
            && (status.Rejected? <==> !q.open)
            && (status.Coalesced? <==> q.open && IsCoalescible(c.id) && n > 0 && q.pending[n - 1].id == c.id)
            && (status.Rejected? ==> q' == q)
            && (status.Coalesced? ==> q'.pending == q.pending[..n - 1] + [c] && q'.retained == q.retained)
            && (status.Queued? && n < 127 ==> q'.pending == q.pending + [c] && q'.retained == q.retained)
            && (status.Queued? && n == 127 ==> q'.pending == q.pending[1..] + [c] && IsDisposal(q.pending[0], q.retained, q'.retained))
            && q'.open == q.open && q'.generation == q.generation
  {
  }

  /** One command was discarded: an export it owed is reported as not done, a decryption as
      cancelled, and a result it did not owe is as it was. */
  ghost predicate IsDisposal(c: Command, before: Retained, after: Retained) {
    && (if c.id == EXPORT_ID then !after.exported.success && after.exported.sequence != 0 else after.exported == before.exported)
    && (if c.id == DECRYPTION_ID then after.keys.status == KEY_CANCELLED && after.keys.sequence != 0 else after.keys == before.keys)
  }

  /** A session edge reports every discarded command: when any owed a result, the retained one says
      not done or cancelled. */
  lemma {:induction false} DisposalsReportFailure(r: Retained, cmds: seq<Command>)
    requires forall i :: 0 <= i < |cmds| ==> cmds[i].n <= |cmds[i].data|
    ensures var after := AllDisposed(r, cmds);
            && (if Count(EXPORT_ID, cmds) > 0 then !after.exported.success else after.exported == r.exported)
            && (if Count(DECRYPTION_ID, cmds) > 0 then after.keys.status == KEY_CANCELLED else after.keys == r.keys)
    decreases |cmds|
  {
    if |cmds| > 0 {
      DisposalsReportFailure(Disposed(r, cmds[0]), cmds[1..]);
    }
  }

  /** All submissions of a list, in order. */
  ghost function SubmittedAll(dataMax: nat, q: Queue, cmds: seq<Command>): (r: Queue)
    requires Wellformed(q, dataMax)
    requires forall i :: 0 <= i < |cmds| ==> WellStored(cmds[i], dataMax)
    ensures Wellformed(r, dataMax) && r.open == q.open
  {
    if |cmds| == 0 then q
    else
      var before := SubmittedAll(dataMax, q, cmds[..|cmds| - 1]);
      OperationsKeepWellformed(dataMax, before, cmds[|cmds| - 1], true);
      Submitted(dataMax, before, cmds[|cmds| - 1])
  }

  /** The coalesced stream: the same submissions into a queue that never overflows. */
  function CoalescedStream(cmds: seq<Command>): seq<Command> {
    if |cmds| == 0 then [] else Extended(CoalescedStream(cmds[..|cmds| - 1]), cmds[|cmds| - 1])
  }

  /** With no drain, an open queue holds exactly the newest 127 entries of the coalesced
      stream, whatever was submitted. */
  lemma {:induction false} UndrainedQueueHoldsNewest(dataMax: nat, q: Queue, cmds: seq<Command>)
    requires Wellformed(q, dataMax) && q.open && q.pending == []
    requires forall i :: 0 <= i < |cmds| ==> WellStored(cmds[i], dataMax)
    ensures SubmittedAll(dataMax, q, cmds).pending == Newest(CoalescedStream(cmds))
  {
    if |cmds| > 0 {
      var prior, c := cmds[..|cmds| - 1], cmds[|cmds| - 1];
      UndrainedQueueHoldsNewest(dataMax, q, prior);
      NewestCommutesWithExtending(CoalescedStream(prior), c);
    }
  }

  lemma {:induction false} NewestCommutesWithExtending(pending: seq<Command>, c: Command)
    ensures Newest(Extended(Newest(pending), c)) == Newest(Extended(pending, c))
  {
    if |pending| > LIMIT {
      var kept := Newest(pending);
      assert kept[|kept| - 1] == pending[|pending| - 1];
      assert Overwrites(kept, c) == Overwrites(pending, c);
    }
  }

  /** Publishing for discarded commands advances each sequence once per command that owes
      that result, and leaves the other result alone. */
  lemma {:induction false} DisposalSequences(r: Retained, cmds: seq<Command>, exports: nat, keys: nat)
    requires forall i :: 0 <= i < |cmds| ==> cmds[i].n <= |cmds[i].data|
    requires r.exported.sequence == SequenceAfter(exports) && r.keys.sequence == SequenceAfter(keys)
    ensures AllDisposed(r, cmds).exported.sequence == SequenceAfter(exports + Count(EXPORT_ID, cmds))
    ensures AllDisposed(r, cmds).keys.sequence == SequenceAfter(keys + Count(DECRYPTION_ID, cmds))
    decreases |cmds|
  {
    if |cmds| > 0 {
      SequenceAdvances(exports);
      SequenceAdvances(keys);
      var e := exports + (if cmds[0].id == EXPORT_ID then 1 else 0);
      var k := keys + (if cmds[0].id == DECRYPTION_ID then 1 else 0);
      DisposalSequences(Disposed(r, cmds[0]), cmds[1..], e, k);
    }
  }

  function Count(id: int, cmds: seq<Command>): nat {
    if |cmds| == 0 then 0 else (if cmds[0].id == id then 1 else 0) + Count(id, cmds[1..])
  }
}
