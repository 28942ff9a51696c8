/** Every interleaving of any number of producers with the decoder thread. A step is one
    critical section (or one move of the decoder between two of them); the records that
    only the proofs need are ordinary fields of the run state. */
module CommandRuns {
  import opened Commands
  import opened Results
  import opened KeyCommands
  import opened QueueSpec

  /** The command the drain loop holds between two critical sections. */
  datatype Stage =
    | Resting
    | Taken(c: Command)
    | Judged(c: Command, exportStatus: int, keyStatus: int)
    | ExportSent(c: Command, keyStatus: int)

  /** One publication: the command, its status, and the generation reported at the time. */
  datatype Report = Report(c: Command, status: int, generation: nat)

  datatype Host<S> = Host(
    q: Queue, stage: Stage, world: S,
    admitted: multiset<Command>,    // every accepted submission of the run
    exportLog: seq<Report>, keyLog: seq<Report>,
    // since the last session edge:
    base: S, accepted: seq<Command>, ran: seq<Command>,
    drained: multiset<Command>, evicted: multiset<Command>, superseded: multiset<Command>,
    harmful: nat)                   // overwrites that may have lost a setting

  datatype Env<!S> = Env(layout: Layout, apply: (S, Command) -> S)

  /** Producers submit; the decoder thread opens and closes sessions, takes, runs, and
      publishes. `Run` carries how hidden callees end. */
  datatype Step =
    | Submit(id: int, payload: Payload)
    | Edge(open: bool)
    | Take
    | Run(status: int, around: Surroundings)
    | SendExport
    | SendKey

  ghost function Start<S>(world: S): Host<S> {
    Host(Queue([], false, 0, Retained(NO_EXPORT, NO_KEY)), Resting, world, multiset{}, [], [],
         world, [], [], multiset{}, multiset{}, multiset{}, 0)
  }

  ghost predicate Enabled<S>(h: Host<S>, step: Step) {
    match step
    case Submit(_, _) => true
    case Edge(_) => h.stage.Resting?
    case Take => h.stage.Resting? && h.q.pending != []
    case Run(_, _) => h.stage.Taken?
    case SendExport => h.stage.Judged?
    case SendKey => h.stage.ExportSent?
  }

  ghost function Executed<S>(env: Env<S>, world: S, c: Command): S {
    if PayloadIsValid(env.layout, c) then env.apply(world, c) else world
  }

  function Clamped(status: int): int {
    if status > KEY_APPLIED then KEY_INVALID else status
  }

  function Logged(log: seq<Report>, id: int, c: Command, status: int, generation: nat): seq<Report> {
    if c.id == id then log + [Report(c, status, generation)] else log
  }

  function AllLogged(log: seq<Report>, id: int, cmds: seq<Command>, status: int, generation: nat): seq<Report>
    decreases |cmds|
  {
    if |cmds| == 0 then log else AllLogged(Logged(log, id, cmds[0], status, generation), id, cmds[1..], status, generation)
  }

  ghost predicate Sound<S>(env: Env<S>, h: Host<S>) {
    && env.layout.Valid()
    && Wellformed(h.q, env.layout.dataMax)
    && (!h.stage.Resting? ==> WellStored(h.stage.c, env.layout.dataMax) && h.q.open)
  }

  /** The newest command of a list that the drain will accept, if there is one. */
  function NewestValid(layout: Layout, cmds: seq<Command>): seq<Command> {
    if |cmds| == 0 then []
    else if PayloadIsValid(layout, cmds[|cmds| - 1]) then [cmds[|cmds| - 1]]
    else NewestValid(layout, cmds[..|cmds| - 1])
  }

  /** What is still to run: the command in hand, if it has not run yet, and the queue. */
  function ToRun(h: Host): seq<Command> {
    (if h.stage.Taken? then [h.stage.c] else []) + h.q.pending
  }

  /** The line of the session: what has run since its edge, and what is still to run. */
  function Line(h: Host): seq<Command> {
    h.ran + ToRun(h)
  }

  /** Overwriting the last command of a line with `c` loses nothing: `c` will be accepted, or
      the one it replaces would not have been, or that one repeats the newest accepted command
      before it. */
  predicate Harmless(layout: Layout, line: seq<Command>, c: Command)
    requires |line| > 0
  {
    var a := line[|line| - 1];
    PayloadIsValid(layout, c) || !PayloadIsValid(layout, a) || NewestValid(layout, line[..|line| - 1]) == [a]
  }

  /** The harmful overwrites counted after a submission. */
  ghost function HarmAfter<S>(env: Env<S>, h: Host<S>, c: Command): nat {
    if h.q.open && Overwrites(h.q.pending, c) && !Harmless(env.layout, Line(h), c) then h.harmful + 1 else h.harmful
  }

  ghost function AfterSubmit<S>(env: Env<S>, h: Host<S>, c: Command): Host<S>
    requires Sound(env, h)
  {
    if !h.q.open then h
    else
      var queued, generation := h.q.pending, ReportedGeneration(h.q);
      var h1 := h.(q := Submitted(env.layout.dataMax, h.q, c),
                   admitted := h.admitted + multiset{c}, accepted := h.accepted + [c]);
      if Overwrites(queued, c) then h1.(superseded := h.superseded + multiset{queued[|queued| - 1]})
      else if |queued| < LIMIT then h1
      else h1.(evicted := h.evicted + multiset{queued[0]},
               exportLog := Logged(h.exportLog, EXPORT_ID, queued[0], APPLY_FAILED, generation),
               keyLog := Logged(h.keyLog, DECRYPTION_ID, queued[0], KEY_CANCELLED, generation))
  }

  ghost function AfterEdge<S>(env: Env<S>, h: Host<S>, open: bool): Host<S>
    requires Sound(env, h)
  {
    var generation := ReportedGeneration(h.q);
    h.(q := SessionEdge(env.layout.dataMax, h.q, open),
       exportLog := AllLogged(h.exportLog, EXPORT_ID, h.q.pending, APPLY_FAILED, generation),
       keyLog := AllLogged(h.keyLog, DECRYPTION_ID, h.q.pending, KEY_CANCELLED, generation),
       base := h.world, accepted := [], ran := [],
       drained := multiset{}, evicted := multiset{}, superseded := multiset{}, harmful := 0)
  }

  ghost function AfterRun<S>(env: Env<S>, h: Host<S>, status: int, around: Surroundings): Host<S>
    requires Sound(env, h) && h.stage.Taken?
  {
    var c := h.stage.c;
    if !PayloadIsValid(env.layout, c) then h.(ran := h.ran + [c], stage := Judged(c, APPLY_INVALID_PAYLOAD, KEY_INVALID))
    else
      var result := if c.id == DECRYPTION_ID then ApplyStatus(c, ReportedGeneration(h.q), around) else status;
      h.(world := env.apply(h.world, c), ran := h.ran + [c], stage := Judged(c, result, result))
  }

  ghost function AfterTake<S>(h: Host<S>): Host<S>
    requires h.q.pending != []
  {
    h.(q := Popped(h.q), stage := Taken(h.q.pending[0]))
  }

  ghost function AfterSendExport<S>(h: Host<S>): Host<S>
    requires h.stage.Judged? && h.stage.c.n <= |h.stage.c.data|
  {
    var c, status := h.stage.c, h.stage.exportStatus;
    h.(q := h.q.(retained := h.q.retained.(exported := ExportReport(h.q.retained.exported, c, status))),
       exportLog := Logged(h.exportLog, EXPORT_ID, c, status, ReportedGeneration(h.q)),
       stage := ExportSent(c, h.stage.keyStatus))
  }

  ghost function AfterSendKey<S>(h: Host<S>): Host<S>
    requires h.stage.ExportSent? && h.stage.c.n <= |h.stage.c.data|
  {
    var c, status := h.stage.c, h.stage.keyStatus;
    h.(q := h.q.(retained := h.q.retained.(keys := KeyReport(h.q.retained.keys, c, status))),
       keyLog := Logged(h.keyLog, DECRYPTION_ID, c, Clamped(status), ReportedGeneration(h.q)),
       stage := Resting, drained := h.drained + multiset{c})
  }

  /** One step; a step that is not enabled leaves the state alone. */
  ghost function Next<S>(env: Env<S>, h: Host<S>, step: Step): Host<S>
    requires Sound(env, h)
  {
    if !Enabled(h, step) then h
    else match step
      case Submit(id, payload) =>
        var c := Stored(env.layout.dataMax, id, payload);
        AfterSubmit(env, h, c).(harmful := HarmAfter(env, h, c))
      case Edge(open) => AfterEdge(env, h, open)
      case Take => AfterTake(h)
      case Run(status, around) => AfterRun(env, h, status, around)
      case SendExport => AfterSendExport(h)
      case SendKey => AfterSendKey(h)
  }

  lemma {:induction false} NextKeepsSound<S>(env: Env<S>, h: Host<S>, step: Step)
    requires Sound(env, h)
    ensures Sound(env, Next(env, h, step))
  {
    if Enabled(h, step) {
      match step
      case Submit(id, payload) =>
        OperationsKeepWellformed(env.layout.dataMax, h.q, Stored(env.layout.dataMax, id, payload), true);
      case Edge(open) => OperationsKeepWellformed(env.layout.dataMax, h.q, Cleared(env.layout.dataMax), open);
      case Take => OperationsKeepWellformed(env.layout.dataMax, h.q, Cleared(env.layout.dataMax), true);
      case _ =>
    }
  }

  /** The state after a whole interleaving. */
  ghost function After<S>(env: Env<S>, h: Host<S>, steps: seq<Step>): (r: Host<S>)
    requires Sound(env, h)
    ensures Sound(env, r)
  {
    if |steps| == 0 then h
    else
      var before := After(env, h, steps[..|steps| - 1]);
      NextKeepsSound(env, before, steps[|steps| - 1]);
      Next(env, before, steps[|steps| - 1])
  }

  // --- Where every accepted command is -------------------------------------------------

  function Held(stage: Stage, d: Command): nat {
    if stage.Resting? then 0 else One(stage.c, d)
  }

  function One(c: Command, d: Command): nat {
    if c == d then 1 else 0
  }

  /** How many copies of `d` a list holds. */
  function Copies(cmds: seq<Command>, d: Command): nat {
    if |cmds| == 0 then 0 else Copies(cmds[..|cmds| - 1], d) + One(cmds[|cmds| - 1], d)
  }

  /** Of each command, every copy accepted since the last session edge is pending, held by
      the drain, drained, evicted or superseded in place: each copy exactly once. */
  ghost predicate AccountedFor<S>(h: Host<S>, d: Command) {
    Copies(h.accepted, d)
    == Copies(h.q.pending, d) + Held(h.stage, d) + h.drained[d] + h.evicted[d] + h.superseded[d]
  }

  lemma {:induction false} CopiesAppend(cmds: seq<Command>, c: Command, d: Command)
    ensures Copies(cmds + [c], d) == Copies(cmds, d) + One(c, d)
  {
    assert (cmds + [c])[..|cmds|] == cmds;
  }

  lemma {:induction false} DropFirst(cmds: seq<Command>, d: Command)
    requires |cmds| > 0
    ensures Copies(cmds[1..], d) + One(cmds[0], d) == Copies(cmds, d)
  {
    if |cmds| > 1 {
      DropFirst(cmds[..|cmds| - 1], d);
      assert cmds[1..][..|cmds| - 2] == cmds[..|cmds| - 1][1..];
    }
  }

  /** A submission adds its own copy and takes away at most one: the one it supersedes at
      the tail, or the one it evicts at the head. */
  lemma {:induction false} SubmitMovesCopies(dataMax: nat, q: Queue, c: Command, d: Command)
    requires Wellformed(q, dataMax) && q.open
    ensures Copies(Newest(Extended(q.pending, c)), d)
            + (if Overwrites(q.pending, c) then One(q.pending[|q.pending| - 1], d) else 0)
            + (if Evicts(q, c) then One(q.pending[0], d) else 0)
            == Copies(q.pending, d) + One(c, d)
  {
    CopiesAppend(q.pending, c, d);
    if Overwrites(q.pending, c) {
      CopiesAppend(q.pending[..|q.pending| - 1], c, d);
    } else if |q.pending| == LIMIT {
      DropFirst(q.pending + [c], d);
      assert Newest(q.pending + [c]) == (q.pending + [c])[1..];
    }
  }

  /** The three ways a submission to an open session can go. */
  lemma {:induction false} SubmitBooks<S>(env: Env<S>, h: Host<S>, c: Command, d: Command)
    requires Sound(env, h) && h.q.open
    ensures var h' := AfterSubmit(env, h, c);
            && h'.accepted == h.accepted + [c] && h'.stage == h.stage && h'.drained == h.drained
            && h'.q.pending == Newest(Extended(h.q.pending, c))
            && h'.superseded[d] == h.superseded[d] + (if Overwrites(h.q.pending, c) then One(h.q.pending[|h.q.pending| - 1], d) else 0)
            && h'.evicted[d] == h.evicted[d] + (if Evicts(h.q, c) then One(h.q.pending[0], d) else 0)
            && h'.admitted[d] == h.admitted[d] + One(c, d)
  {
  }

  /** What leaves the queue on a submission is booked as superseded or as evicted. */
  lemma {:induction false} SubmitBalances<S>(env: Env<S>, h: Host<S>, c: Command, d: Command)
    requires Sound(env, h) && h.q.open
    ensures var h' := AfterSubmit(env, h, c);
            && Copies(h'.accepted, d) == Copies(h.accepted, d) + One(c, d)
            && Copies(h'.q.pending, d) + h'.superseded[d] + h'.evicted[d]
               == Copies(h.q.pending, d) + h.superseded[d] + h.evicted[d] + One(c, d)
            && h'.stage == h.stage && h'.drained == h.drained
  {
    SubmitBooks(env, h, c, d);
    SubmitMovesCopies(env.layout.dataMax, h.q, c, d);
    CopiesAppend(h.accepted, c, d);
  }

  lemma {:induction false} SubmitAccounts<S>(env: Env<S>, h: Host<S>, c: Command, d: Command)
    requires Sound(env, h) && AccountedFor(h, d)
    ensures AccountedFor(AfterSubmit(env, h, c), d)
  {
    if h.q.open {
      SubmitBalances(env, h, c, d);
    }
  }

  lemma {:induction false} TakeAccounts<S>(env: Env<S>, h: Host<S>, d: Command)
    requires Sound(env, h) && AccountedFor(h, d) && h.stage.Resting? && h.q.pending != []
    ensures AccountedFor(AfterTake(h), d)
  {
    DropFirst(h.q.pending, d);
  }

  lemma {:induction false} EdgeAccounts<S>(env: Env<S>, h: Host<S>, open: bool, d: Command)
    requires Sound(env, h) && h.stage.Resting?
    ensures AccountedFor(AfterEdge(env, h, open), d)
  {
  }

  lemma {:induction false} RunAccounts<S>(env: Env<S>, h: Host<S>, status: int, around: Surroundings, d: Command)
    requires Sound(env, h) && AccountedFor(h, d) && h.stage.Taken?
    ensures AccountedFor(AfterRun(env, h, status, around), d)
  {
  }

  lemma {:induction false} SendAccounts<S>(env: Env<S>, h: Host<S>, d: Command)
    requires Sound(env, h) && AccountedFor(h, d)
    ensures h.stage.Judged? ==> AccountedFor(AfterSendExport(h), d)
    ensures h.stage.ExportSent? ==> AccountedFor(AfterSendKey(h), d)
  {
  }

  lemma {:induction false} NextAccounts<S>(env: Env<S>, h: Host<S>, step: Step, d: Command)
    requires Sound(env, h) && AccountedFor(h, d)
    ensures AccountedFor(Next(env, h, step), d)
  {
    if Enabled(h, step) {
      match step
      case Submit(id, payload) => SubmitAccounts(env, h, Stored(env.layout.dataMax, id, payload), d);
      case Edge(open) => EdgeAccounts(env, h, open, d);
      case Take => TakeAccounts(env, h, d);
      case Run(status, around) => RunAccounts(env, h, status, around, d);
      case SendExport => SendAccounts(env, h, d);
      case SendKey => SendAccounts(env, h, d);
    }
  }

  // --- Results are published exactly once ----------------------------------------------

  /** How many of the logged publications answer a copy of `d`. */
  function Published(log: seq<Report>, d: Command): nat {
    if |log| == 0 then 0 else Published(log[..|log| - 1], d) + One(log[|log| - 1].c, d)
  }

  function UnsentExport(stage: Stage, d: Command): nat {
    if stage.Taken? || stage.Judged? then One(stage.c, d) else 0
  }

  /** Every copy of an admitted export is pending, held unpublished, or published: over the
      whole run, across sessions. */
  ghost predicate ExportReportedOnce<S>(h: Host<S>, d: Command) {
    h.admitted[d] == Copies(h.q.pending, d) + UnsentExport(h.stage, d) + Published(h.exportLog, d)
  }

  ghost predicate KeyReportedOnce<S>(h: Host<S>, d: Command) {
    h.admitted[d] == Copies(h.q.pending, d) + Held(h.stage, d) + Published(h.keyLog, d)
  }

  lemma {:induction false} LoggedCounts(log: seq<Report>, id: int, c: Command, status: int, generation: nat, d: Command)
    requires d.id == id
    ensures Published(Logged(log, id, c, status, generation), d) == Published(log, d) + One(c, d)
  {
    assert (log + [Report(c, status, generation)])[..|log|] == log;
  }

  lemma {:induction false} AllLoggedCounts(log: seq<Report>, id: int, cmds: seq<Command>, status: int, generation: nat, d: Command)
    requires d.id == id
    ensures Published(AllLogged(log, id, cmds, status, generation), d) == Published(log, d) + Copies(cmds, d)
    decreases |cmds|
  {
    if |cmds| > 0 {
      DropFirst(cmds, d);
      LoggedCounts(log, id, cmds[0], status, generation, d);
      AllLoggedCounts(Logged(log, id, cmds[0], status, generation), id, cmds[1..], status, generation, d);
    }
  }

  /** Of the commands that owe a result a submission only takes away the one it evicts: what it
      overwrites in place is a setter, which owes none. */
  lemma {:induction false} SubmitMovesOwedCopies(dataMax: nat, q: Queue, c: Command, d: Command)
    requires Wellformed(q, dataMax) && q.open && (d.id == EXPORT_ID || d.id == DECRYPTION_ID)
    ensures Copies(Newest(Extended(q.pending, c)), d) + (if Evicts(q, c) then One(q.pending[0], d) else 0)
            == Copies(q.pending, d) + One(c, d)
  {
    SubmitMovesCopies(dataMax, q, c, d);
    if Overwrites(q.pending, c) {
      CoalescibleSettersOweNoResult(c.id);
    }
  }

  lemma {:induction false} EvictionPublishes<S>(env: Env<S>, h: Host<S>, c: Command, d: Command)
    requires Sound(env, h) && h.q.open
    ensures var h', evicted := AfterSubmit(env, h, c), if Evicts(h.q, c) then One(h.q.pending[0], d) else 0;
            && (d.id == EXPORT_ID ==> Published(h'.exportLog, d) == Published(h.exportLog, d) + evicted)
            && (d.id == DECRYPTION_ID ==> Published(h'.keyLog, d) == Published(h.keyLog, d) + evicted)
  {
    if Evicts(h.q, c) {
      if d.id == EXPORT_ID {
        LoggedCounts(h.exportLog, EXPORT_ID, h.q.pending[0], APPLY_FAILED, ReportedGeneration(h.q), d);
      } else if d.id == DECRYPTION_ID {
        LoggedCounts(h.keyLog, DECRYPTION_ID, h.q.pending[0], KEY_CANCELLED, ReportedGeneration(h.q), d);
      }
    }
  }

  lemma {:induction false} SubmitReports<S>(env: Env<S>, h: Host<S>, c: Command, d: Command)
    requires Sound(env, h) && (d.id == EXPORT_ID || d.id == DECRYPTION_ID)
    ensures d.id == EXPORT_ID && ExportReportedOnce(h, d) ==> ExportReportedOnce(AfterSubmit(env, h, c), d)
    ensures d.id == DECRYPTION_ID && KeyReportedOnce(h, d) ==> KeyReportedOnce(AfterSubmit(env, h, c), d)
  {
    if h.q.open {
      SubmitBooks(env, h, c, d);
      SubmitMovesOwedCopies(env.layout.dataMax, h.q, c, d);
      EvictionPublishes(env, h, c, d);
    }
  }

  lemma {:induction false} EdgeReports<S>(env: Env<S>, h: Host<S>, open: bool, d: Command)
    requires Sound(env, h) && h.stage.Resting?
    ensures d.id == EXPORT_ID && ExportReportedOnce(h, d) ==> ExportReportedOnce(AfterEdge(env, h, open), d)
    ensures d.id == DECRYPTION_ID && KeyReportedOnce(h, d) ==> KeyReportedOnce(AfterEdge(env, h, open), d)
  {
    if d.id == EXPORT_ID {
      AllLoggedCounts(h.exportLog, EXPORT_ID, h.q.pending, APPLY_FAILED, ReportedGeneration(h.q), d);
    } else if d.id == DECRYPTION_ID {
      AllLoggedCounts(h.keyLog, DECRYPTION_ID, h.q.pending, KEY_CANCELLED, ReportedGeneration(h.q), d);
    }
  }

  lemma {:induction false} SendReportsExport<S>(env: Env<S>, h: Host<S>, d: Command)
    requires Sound(env, h) && ExportReportedOnce(h, d) && d.id == EXPORT_ID && h.stage.Judged?
    ensures ExportReportedOnce(AfterSendExport(h), d)
  {
    LoggedCounts(h.exportLog, EXPORT_ID, h.stage.c, h.stage.exportStatus, ReportedGeneration(h.q), d);
  }

  lemma {:induction false} SendReportsKey<S>(env: Env<S>, h: Host<S>, d: Command)
    requires Sound(env, h) && KeyReportedOnce(h, d) && d.id == DECRYPTION_ID && h.stage.ExportSent?
    ensures KeyReportedOnce(AfterSendKey(h), d)
  {
    LoggedCounts(h.keyLog, DECRYPTION_ID, h.stage.c, Clamped(h.stage.keyStatus), ReportedGeneration(h.q), d);
  }

  lemma {:induction false} TakeReports<S>(env: Env<S>, h: Host<S>, d: Command)
    requires Sound(env, h) && h.stage.Resting? && h.q.pending != []
    ensures ExportReportedOnce(h, d) ==> ExportReportedOnce(AfterTake(h), d)
    ensures KeyReportedOnce(h, d) ==> KeyReportedOnce(AfterTake(h), d)
  {
    DropFirst(h.q.pending, d);
  }

  lemma {:induction false} RunReports<S>(env: Env<S>, h: Host<S>, status: int, around: Surroundings, d: Command)
    requires Sound(env, h) && h.stage.Taken?
    ensures ExportReportedOnce(h, d) ==> ExportReportedOnce(AfterRun(env, h, status, around), d)
    ensures KeyReportedOnce(h, d) ==> KeyReportedOnce(AfterRun(env, h, status, around), d)
  {
  }

  lemma {:induction false} NextReportsExport<S>(env: Env<S>, h: Host<S>, step: Step, d: Command)
    requires Sound(env, h) && ExportReportedOnce(h, d) && d.id == EXPORT_ID
    ensures ExportReportedOnce(Next(env, h, step), d)
  {
    if Enabled(h, step) {
      match step
      case Submit(id, payload) => SubmitReports(env, h, Stored(env.layout.dataMax, id, payload), d);
      case Edge(open) => EdgeReports(env, h, open, d);
      case SendExport => SendReportsExport(env, h, d);
      case Run(status, around) => RunReports(env, h, status, around, d);
      case Take => TakeReports(env, h, d);
      case SendKey =>
    }
  }

  lemma {:induction false} NextReportsKey<S>(env: Env<S>, h: Host<S>, step: Step, d: Command)
    requires Sound(env, h) && KeyReportedOnce(h, d) && d.id == DECRYPTION_ID
    ensures KeyReportedOnce(Next(env, h, step), d)
  {
    if Enabled(h, step) {
      match step
      case Submit(id, payload) => SubmitReports(env, h, Stored(env.layout.dataMax, id, payload), d);
      case Edge(open) => EdgeReports(env, h, open, d);
      case SendKey => SendReportsKey(env, h, d);
      case Run(status, around) => RunReports(env, h, status, around, d);
      case Take => TakeReports(env, h, d);
      case SendExport =>
    }
  }

  // --- The retained results are those of the logs --------------------------------------

  function ReplayExports(log: seq<Report>): ExportResult
    requires forall i :: 0 <= i < |log| ==> log[i].c.n <= |log[i].c.data|
  {
    if |log| == 0 then NO_EXPORT
    else ExportReport(ReplayExports(log[..|log| - 1]), log[|log| - 1].c, log[|log| - 1].status)
  }

  function ReplayKeys(log: seq<Report>): KeyResult
    requires forall i :: 0 <= i < |log| ==> log[i].c.n <= |log[i].c.data|
  {
    if |log| == 0 then NO_KEY
    else KeyReport(ReplayKeys(log[..|log| - 1]), log[|log| - 1].c, log[|log| - 1].status)
  }

  /** Every log entry is a stored command of the given id. */
  ghost predicate Owed(log: seq<Report>, id: int, dataMax: nat) {
    forall i :: 0 <= i < |log| ==> log[i].c.id == id && WellStored(log[i].c, dataMax)
  }

  ghost predicate RetainedMatchesLogs<S>(env: Env<S>, h: Host<S>) {
    && Owed(h.exportLog, EXPORT_ID, env.layout.dataMax)
    && Owed(h.keyLog, DECRYPTION_ID, env.layout.dataMax)
    && h.q.retained == Replayed(h.exportLog, h.keyLog, env.layout.dataMax)
  }

  ghost function Replayed(exports: seq<Report>, keys: seq<Report>, dataMax: nat): Retained
    requires Owed(exports, EXPORT_ID, dataMax) && Owed(keys, DECRYPTION_ID, dataMax)
  {
    Retained(ReplayExports(exports), ReplayKeys(keys))
  }

  /** After N publications the retained sequence number is 1 + (N-1) mod (2^64 - 1), and
      the retained result answers the last command published. */
  lemma {:induction false} ExportSequenceCounts(log: seq<Report>)
    requires forall i :: 0 <= i < |log| ==> log[i].c.n <= |log[i].c.data| && log[i].c.id == EXPORT_ID
    ensures ReplayExports(log).sequence == SequenceAfter(|log|)
    ensures |log| > 0 ==> ReplayExports(log).sequence != 0
    ensures |log| > 0 ==> (ReplayExports(log).success <==> log[|log| - 1].status == APPLY_COMPLETED)
  {
    if |log| > 0 {
      ExportSequenceCounts(log[..|log| - 1]);
      SequenceAdvances(|log| - 1);
    }
  }

  lemma {:induction false} KeySequenceCounts(log: seq<Report>)
    requires forall i :: 0 <= i < |log| ==> log[i].c.n <= |log[i].c.data| && log[i].c.id == DECRYPTION_ID
    ensures ReplayKeys(log).sequence == SequenceAfter(|log|)
    ensures |log| > 0 ==> ReplayKeys(log).sequence != 0
    ensures |log| > 0 ==> ReplayKeys(log).status == Clamped(log[|log| - 1].status)
  {
    if |log| > 0 {
      KeySequenceCounts(log[..|log| - 1]);
      SequenceAdvances(|log| - 1);
    }
  }

  lemma {:induction false} LoggedReplays(exports: seq<Report>, keys: seq<Report>, dataMax: nat, c: Command,
                                           exportStatus: int, keyStatus: int, generation: nat)
    requires Owed(exports, EXPORT_ID, dataMax) && Owed(keys, DECRYPTION_ID, dataMax) && WellStored(c, dataMax)
    ensures var e := Logged(exports, EXPORT_ID, c, exportStatus, generation);
            Owed(e, EXPORT_ID, dataMax) && ReplayExports(e) == ExportReport(ReplayExports(exports), c, exportStatus)
    ensures var k := Logged(keys, DECRYPTION_ID, c, Clamped(keyStatus), generation);
            Owed(k, DECRYPTION_ID, dataMax) && ReplayKeys(k) == KeyReport(ReplayKeys(keys), c, keyStatus)
  {
    assert (exports + [Report(c, exportStatus, generation)])[..|exports|] == exports;
    assert (keys + [Report(c, Clamped(keyStatus), generation)])[..|keys|] == keys;
  }

  lemma {:induction false} DisposalReplays(exports: seq<Report>, keys: seq<Report>, dataMax: nat, cmds: seq<Command>, generation: nat)
    requires Owed(exports, EXPORT_ID, dataMax) && Owed(keys, DECRYPTION_ID, dataMax)
    requires forall i :: 0 <= i < |cmds| ==> WellStored(cmds[i], dataMax)
    ensures var e, k := AllLogged(exports, EXPORT_ID, cmds, APPLY_FAILED, generation),
                        AllLogged(keys, DECRYPTION_ID, cmds, KEY_CANCELLED, generation);
            && Owed(e, EXPORT_ID, dataMax) && Owed(k, DECRYPTION_ID, dataMax)
            && (forall i :: 0 <= i < |cmds| ==> cmds[i].n <= |cmds[i].data|)
            && Replayed(e, k, dataMax) == AllDisposed(Replayed(exports, keys, dataMax), cmds)
    decreases |cmds|
  {
    if |cmds| > 0 {
      LoggedReplays(exports, keys, dataMax, cmds[0], APPLY_FAILED, KEY_CANCELLED, generation);
      DisposalReplays(Logged(exports, EXPORT_ID, cmds[0], APPLY_FAILED, generation),
                      Logged(keys, DECRYPTION_ID, cmds[0], KEY_CANCELLED, generation), dataMax, cmds[1..], generation);
    }
  }

  lemma {:induction false} SubmitRetains<S>(env: Env<S>, h: Host<S>, c: Command)
    requires Sound(env, h) && RetainedMatchesLogs(env, h)
    ensures RetainedMatchesLogs(env, AfterSubmit(env, h, c))
  {
    if Evicts(h.q, c) {
      LoggedReplays(h.exportLog, h.keyLog, env.layout.dataMax, h.q.pending[0], APPLY_FAILED, KEY_CANCELLED, ReportedGeneration(h.q));
    }
  }

  lemma {:induction false} EdgeRetains<S>(env: Env<S>, h: Host<S>, open: bool)
    requires Sound(env, h) && RetainedMatchesLogs(env, h)
    ensures RetainedMatchesLogs(env, AfterEdge(env, h, open))
  {
    DisposalReplays(h.exportLog, h.keyLog, env.layout.dataMax, h.q.pending, ReportedGeneration(h.q));
  }

  lemma {:induction false} SendRetains<S>(env: Env<S>, h: Host<S>)
    requires Sound(env, h) && RetainedMatchesLogs(env, h)
    ensures h.stage.Judged? ==> RetainedMatchesLogs(env, AfterSendExport(h))
    ensures h.stage.ExportSent? ==> RetainedMatchesLogs(env, AfterSendKey(h))
  {
    var generation := ReportedGeneration(h.q);
    if h.stage.Judged? {
      LoggedReplays(h.exportLog, h.keyLog, env.layout.dataMax, h.stage.c, h.stage.exportStatus, KEY_INVALID, generation);
    } else if h.stage.ExportSent? {
      LoggedReplays(h.exportLog, h.keyLog, env.layout.dataMax, h.stage.c, APPLY_FAILED, h.stage.keyStatus, generation);
    }
  }

  lemma {:induction false} NextRetains<S>(env: Env<S>, h: Host<S>, step: Step)
    requires Sound(env, h) && RetainedMatchesLogs(env, h)
    ensures RetainedMatchesLogs(env, Next(env, h, step))
  {
    if Enabled(h, step) {
      match step
      case Submit(id, payload) => SubmitRetains(env, h, Stored(env.layout.dataMax, id, payload));
      case Edge(open) => EdgeRetains(env, h, open);
      case SendExport => SendRetains(env, h);
      case SendKey => SendRetains(env, h);
      case _ =>
    }
  }

  // --- Applied only in the session it was made for --------------------------------------

  ghost predicate CarriesGeneration(c: Command, generation: nat) {
    |c.data| >= DECRYPTION_SIZE && generation != 0 && Field(c, 8, 8) == generation
  }

  /** Every logged decryption result that says applied carried the generation it was
      published under. */
  ghost predicate AppliedCarry(log: seq<Report>) {
    forall i :: 0 <= i < |log| && log[i].status == KEY_APPLIED ==> CarriesGeneration(log[i].c, log[i].generation)
  }

  ghost predicate AppliedInOwnSession<S>(h: Host<S>) {
    && AppliedCarry(h.keyLog)
    && ((h.stage.Judged? || h.stage.ExportSent?) && h.stage.c.id == DECRYPTION_ID && Clamped(h.stage.keyStatus) == KEY_APPLIED
        ==> CarriesGeneration(h.stage.c, ReportedGeneration(h.q)))
  }

  lemma {:induction false} DisposalNeverApplies(log: seq<Report>, cmds: seq<Command>, generation: nat)
    requires AppliedCarry(log)
    ensures AppliedCarry(AllLogged(log, DECRYPTION_ID, cmds, KEY_CANCELLED, generation))
    decreases |cmds|
  {
    if |cmds| > 0 {
      DisposalNeverApplies(Logged(log, DECRYPTION_ID, cmds[0], KEY_CANCELLED, generation), cmds[1..], generation);
    }
  }

  lemma {:induction false} RunApplies<S>(env: Env<S>, h: Host<S>, status: int, around: Surroundings)
    requires Sound(env, h) && AppliedInOwnSession(h) && h.stage.Taken?
    ensures AppliedInOwnSession(AfterRun(env, h, status, around))
  {
    if h.stage.c.id == DECRYPTION_ID && ApplyStatus(h.stage.c, ReportedGeneration(h.q), around) == KEY_APPLIED {
      AppliedOnlyInItsOwnSession(h.stage.c, ReportedGeneration(h.q), around);
    }
  }

  lemma {:induction false} SubmitApplies<S>(env: Env<S>, h: Host<S>, c: Command)
    requires Sound(env, h) && AppliedInOwnSession(h)
    ensures AppliedInOwnSession(AfterSubmit(env, h, c))
  {
  }

  lemma {:induction false} SendApplies<S>(env: Env<S>, h: Host<S>)
    requires Sound(env, h) && AppliedInOwnSession(h)
    ensures h.stage.Judged? ==> AppliedInOwnSession(AfterSendExport(h))
    ensures h.stage.ExportSent? ==> AppliedInOwnSession(AfterSendKey(h))
  {
  }

  lemma {:induction false} NextApplies<S>(env: Env<S>, h: Host<S>, step: Step)
    requires Sound(env, h) && AppliedInOwnSession(h)
    ensures AppliedInOwnSession(Next(env, h, step))
  {
    if Enabled(h, step) {
      match step
      case Submit(id, payload) => SubmitApplies(env, h, Stored(env.layout.dataMax, id, payload));
      case Edge(_) => DisposalNeverApplies(h.keyLog, h.q.pending, ReportedGeneration(h.q));
      case Take =>
      case Run(status, around) => RunApplies(env, h, status, around);
      case _ => SendApplies(env, h);
    }
  }

  // --- Coalescing preserves meaning -----------------------------------------------------

  /** The decoder state after a list of commands, oldest first. */
  ghost function Final<S>(env: Env<S>, world: S, cmds: seq<Command>): S {
    if |cmds| == 0 then world else Executed(env, Final(env, world, cmds[..|cmds| - 1]), cmds[|cmds| - 1])
  }

  lemma {:induction false} FinalAppend<S>(env: Env<S>, world: S, cmds: seq<Command>, c: Command)
    ensures Final(env, world, cmds + [c]) == Executed(env, Final(env, world, cmds), c)
  {
    assert (cmds + [c])[..|cmds|] == cmds;
  }

  /** A coalescible setter overwrites the effect of the same setter just before it. */
  ghost predicate SettersOverwrite<S(!new)>(env: Env<S>) {
    forall s: S, a: Command, b: Command {:trigger env.apply(env.apply(s, a), b)} ::
      IsCoalescible(a.id) && a.id == b.id && PayloadIsValid(env.layout, a) && PayloadIsValid(env.layout, b)
      ==> env.apply(env.apply(s, a), b) == env.apply(s, b)
  }

  /** The decoder has run the first part of the line, in order. */
  ghost predicate RanInOrder<S>(env: Env<S>, h: Host<S>) {
    h.world == Final(env, h.base, h.ran)
  }

  /** While nothing of the session was evicted and every overwrite was harmless, the line
      means what all accepted submissions mean, superseded ones included. */
  ghost predicate LineMeansAccepted<S>(env: Env<S>, h: Host<S>) {
    h.evicted == multiset{} && h.harmful == 0 ==> Final(env, h.base, Line(h)) == Final(env, h.base, h.accepted)
  }

  /** The same of the decoder state and what is left to run. */
  ghost predicate MeaningPreserved<S>(env: Env<S>, h: Host<S>) {
    h.evicted == multiset{} && h.harmful == 0 ==>
      Final(env, h.world, ToRun(h)) == Final(env, h.base, h.accepted)
  }

  lemma {:induction false} FinalInParts<S>(env: Env<S>, world: S, x: seq<Command>, y: seq<Command>)
    ensures Final(env, world, x + y) == Final(env, Final(env, world, x), y)
  {
    if |y| == 0 {
      assert x + y == x;
    } else {
      FinalInParts(env, world, x, y[..|y| - 1]);
      assert (x + y)[..|x + y| - 1] == x + y[..|y| - 1];
    }
  }

  /** Applying the newest accepted setter once more changes nothing. */
  lemma {:induction false} RepeatChangesNothing<S(!new)>(env: Env<S>, world: S, cmds: seq<Command>, a: Command)
    requires SettersOverwrite(env) && IsCoalescible(a.id) && NewestValid(env.layout, cmds) == [a]
    ensures env.apply(Final(env, world, cmds), a) == Final(env, world, cmds)
  {
    var prior, last := cmds[..|cmds| - 1], cmds[|cmds| - 1];
    if PayloadIsValid(env.layout, last) {
      assert last == a;
      assert env.apply(env.apply(Final(env, world, prior), a), a) == env.apply(Final(env, world, prior), a);
    } else {
      RepeatChangesNothing(env, world, prior, a);
    }
  }

  /** A harmless overwrite of `a`, behind `kept`, has the effect of running both. */
  lemma {:induction false} OverwriteMeans<S(!new)>(env: Env<S>, world: S, kept: seq<Command>, a: Command, c: Command)
    requires SettersOverwrite(env) && IsCoalescible(c.id) && a.id == c.id
    requires PayloadIsValid(env.layout, c) || !PayloadIsValid(env.layout, a) || NewestValid(env.layout, kept) == [a]
    ensures Final(env, world, kept + [c]) == Final(env, world, kept + [a] + [c])
  {
    FinalAppend(env, world, kept, a);
    FinalAppend(env, world, kept, c);
    FinalAppend(env, world, kept + [a], c);
    if PayloadIsValid(env.layout, a) {
      if PayloadIsValid(env.layout, c) {
        assert env.apply(env.apply(Final(env, world, kept), a), c) == env.apply(Final(env, world, kept), c);
      } else {
        RepeatChangesNothing(env, world, kept, a);
      }
    }
  }

  lemma {:induction false} CoalescedSubmitMeans<S(!new)>(env: Env<S>, h: Host<S>, c: Command)
    requires Sound(env, h) && SettersOverwrite(env) && h.q.open && Overwrites(h.q.pending, c)
    requires Harmless(env.layout, Line(h), c)
    requires Final(env, h.base, Line(h)) == Final(env, h.base, h.accepted)
    ensures var h' := AfterSubmit(env, h, c);
            Final(env, h'.base, Line(h')) == Final(env, h'.base, h'.accepted)
  {
    var h', line := AfterSubmit(env, h, c), Line(h);
    var kept, a := line[..|line| - 1], line[|line| - 1];
    assert line == kept + [a] && Line(h') == kept + [c];
    OverwriteMeans(env, h.base, kept, a, c);
    FinalAppend(env, h.base, line, c);
    FinalAppend(env, h.base, h.accepted, c);
  }

  lemma {:induction false} SubmitMeans<S(!new)>(env: Env<S>, h: Host<S>, c: Command)
    requires Sound(env, h) && SettersOverwrite(env) && RanInOrder(env, h) && LineMeansAccepted(env, h)
    ensures RanInOrder(env, AfterSubmit(env, h, c).(harmful := HarmAfter(env, h, c)))
    ensures LineMeansAccepted(env, AfterSubmit(env, h, c).(harmful := HarmAfter(env, h, c)))
  {
    var h' := AfterSubmit(env, h, c);
    if h.q.open && h'.evicted == multiset{} && HarmAfter(env, h, c) == 0 {
      if Overwrites(h.q.pending, c) {
        CoalescedSubmitMeans(env, h, c);
      } else if |h.q.pending| < LIMIT {
        assert Line(h') == Line(h) + [c];
        FinalAppend(env, h.base, Line(h), c);
        FinalAppend(env, h.base, h.accepted, c);
      }
    }
  }

  lemma {:induction false} RunMeans<S>(env: Env<S>, h: Host<S>, status: int, around: Surroundings)
    requires Sound(env, h) && RanInOrder(env, h) && LineMeansAccepted(env, h) && h.stage.Taken?
    ensures RanInOrder(env, AfterRun(env, h, status, around)) && LineMeansAccepted(env, AfterRun(env, h, status, around))
  {
    assert Line(AfterRun(env, h, status, around)) == Line(h);
    FinalAppend(env, h.base, h.ran, h.stage.c);
  }

  lemma {:induction false} EdgeMeans<S>(env: Env<S>, h: Host<S>, open: bool)
    requires Sound(env, h) && h.stage.Resting?
    ensures RanInOrder(env, AfterEdge(env, h, open)) && LineMeansAccepted(env, AfterEdge(env, h, open))
  {
    assert Line(AfterEdge(env, h, open)) == [];
  }

  /** Taking a command and publishing its results leave world and line as they were. */
  lemma {:induction false} DrainMovesMean<S>(env: Env<S>, h: Host<S>)
    requires Sound(env, h) && RanInOrder(env, h) && LineMeansAccepted(env, h)
    ensures h.stage.Resting? && h.q.pending != [] ==>
              RanInOrder(env, AfterTake(h)) && LineMeansAccepted(env, AfterTake(h))
    ensures h.stage.Judged? ==> RanInOrder(env, AfterSendExport(h)) && LineMeansAccepted(env, AfterSendExport(h))
    ensures h.stage.ExportSent? ==> RanInOrder(env, AfterSendKey(h)) && LineMeansAccepted(env, AfterSendKey(h))
  {
    if h.stage.Resting? && h.q.pending != [] {
      assert Line(AfterTake(h)) == Line(h);
    }
  }

  lemma {:induction false} NextMeans<S(!new)>(env: Env<S>, h: Host<S>, step: Step)
    requires Sound(env, h) && SettersOverwrite(env) && RanInOrder(env, h) && LineMeansAccepted(env, h)
    ensures RanInOrder(env, Next(env, h, step)) && LineMeansAccepted(env, Next(env, h, step))
  {
    if Enabled(h, step) {
      match step
      case Submit(id, payload) => SubmitMeans(env, h, Stored(env.layout.dataMax, id, payload));
      case Edge(open) => EdgeMeans(env, h, open);
      case Run(status, around) => RunMeans(env, h, status, around);
      case _ => DrainMovesMean(env, h);
    }
  }

  /** A lawful family of handlers: the state is the last command applied. */
  ghost function Recorder(layout: Layout): Env<seq<Command>> {
    Env(layout, (s: seq<Command>, c: Command) => [c])
  }

  lemma {:induction false} RecorderKeepsNewest(layout: Layout, cmds: seq<Command>)
    ensures Final(Recorder(layout), [], cmds) == NewestValid(layout, cmds)
  {
    if |cmds| > 0 {
      RecorderKeepsNewest(layout, cmds[..|cmds| - 1]);
    }
  }

  /** For any line and any submission that overwrites its last command: the overwrite has, for
      every lawful family of handlers and from every decoder state, the effect of running both
      commands, if and only if it is harmless. */
  lemma {:induction false} OverwriteHarmlessExactlyWhen(layout: Layout, line: seq<Command>, c: Command)
    requires Overwrites(line, c)
    ensures (forall env: Env<seq<Command>>, s: seq<Command> :: env.layout == layout && SettersOverwrite(env) ==>
               Final(env, s, Extended(line, c)) == Final(env, s, line + [c]))
            <==> Harmless(layout, line, c)
  {
    var kept, a := line[..|line| - 1], line[|line| - 1];
    assert line == kept + [a];
    if Harmless(layout, line, c) {
      forall env: Env<seq<Command>>, s: seq<Command> | env.layout == layout && SettersOverwrite(env)
        ensures Final(env, s, Extended(line, c)) == Final(env, s, line + [c])
      {
        OverwriteMeans(env, s, kept, a, c);
      }
    } else {
      var env := Recorder(layout);
      assert SettersOverwrite(env);
      RecorderKeepsNewest(layout, kept);
      FinalAppend(env, [], kept, c);
      FinalAppend(env, [], kept, a);
      FinalAppend(env, [], line, c);
      assert Final(env, [], Extended(line, c)) != Final(env, [], line + [c]);
    }
  }

  /** A submission to an idle decoder, counting harmful overwrites. */
  ghost function Counted(layout: Layout, h: Host<seq<Command>>, c: Command): Host<seq<Command>>
    requires Sound(Recorder(layout), h)
  {
    AfterSubmit(Recorder(layout), h, c).(harmful := HarmAfter(Recorder(layout), h, c))
  }

  /** A session that has just been opened. */
  ghost predicate JustOpened(layout: Layout, h: Host<seq<Command>>) {
    && Sound(Recorder(layout), h) && h.q.open && h.stage.Resting? && h.world == h.base == []
    && h.q.pending == h.accepted == h.ran == [] && h.harmful == 0 && h.evicted == multiset{}
  }

  lemma {:induction false} FirstSetterIsQueued(layout: Layout, h: Host<seq<Command>>, a: Command)
    requires JustOpened(layout, h) && WellStored(a, layout.dataMax)
    ensures Counted(layout, h, a)
            == h.(q := h.q.(pending := [a]), admitted := h.admitted + multiset{a}, accepted := [a])
    ensures Sound(Recorder(layout), Counted(layout, h, a))
  {
    assert !Overwrites(h.q.pending, a) && !Evicts(h.q, a);
    assert Newest(Extended(h.q.pending, a)) == [a];
    assert h.accepted + [a] == [a];
  }

  lemma {:induction false} SecondSetterOverwrites(layout: Layout, h: Host<seq<Command>>, a: Command, b: Command)
    requires Sound(Recorder(layout), h) && h.q.open && h.stage.Resting? && h.harmful == 0
    requires h.q.pending == h.accepted == [a] && h.ran == []
    requires IsCoalescible(a.id) && b.id == a.id && PayloadIsValid(layout, a) && !PayloadIsValid(layout, b)
    ensures var h' := Counted(layout, h, b);
            && h'.q.pending == [b] && h'.accepted == [a, b] && h'.harmful == 1
            && h'.evicted == h.evicted && h'.world == h.world && h'.base == h.base && h'.stage == h.stage && h'.ran == []
  {
    assert Overwrites(h.q.pending, b);
    assert Line(h) == [a] && [a][..0] == [];
    assert NewestValid(layout, [a][..0]) == [];
    assert !Harmless(layout, Line(h), b);
    assert Newest(Extended(h.q.pending, b)) == [b];
    assert h.accepted + [b] == [a, b];
  }

  lemma {:induction false} TwoRecorded(layout: Layout, a: Command, b: Command)
    requires PayloadIsValid(layout, a) && !PayloadIsValid(layout, b)
    ensures Final(Recorder(layout), [], [a, b]) == [a]
    ensures Final(Recorder(layout), [], [b]) == []
  {
    RecorderKeepsNewest(layout, [b]);
    RecorderKeepsNewest(layout, [a, b]);
    assert [a, b][..1] == [a] && [b][..0] == [];
  }

  /** In a session with nothing accepted yet, a valid setter overwritten by an invalid one of
      the same id is lost, although nothing overflows. */
  lemma {:induction false} SettersLoseTheFirst(layout: Layout, h: Host<seq<Command>>, a: Command, b: Command)
    requires JustOpened(layout, h) && WellStored(a, layout.dataMax)
    requires IsCoalescible(a.id) && b.id == a.id && PayloadIsValid(layout, a) && !PayloadIsValid(layout, b)
    ensures Sound(Recorder(layout), Counted(layout, h, a))
    ensures var h' := Counted(layout, Counted(layout, h, a), b);
            && h'.evicted == multiset{} && h'.harmful == 1
            && Final(Recorder(layout), h'.base, h'.accepted) == [a]
            && Final(Recorder(layout), h'.world, ToRun(h')) == []
  {
    FirstSetterIsQueued(layout, h, a);
    SecondSetterOverwrites(layout, Counted(layout, h, a), a, b);
    TwoRecorded(layout, a, b);
  }

  lemma {:induction false} GainPayloads(layout: Layout, value: seq<Byte>)
    requires layout.Valid() && |value| == 4
    ensures PayloadIsValid(layout, Stored(layout.dataMax, 104, Bytes(value)))
    ensures !PayloadIsValid(layout, Stored(layout.dataMax, 104, Absent(0)))
  {
  }

  lemma {:induction false} SessionOpens(layout: Layout)
    requires layout.Valid()
    ensures JustOpened(layout, Next(Recorder(layout), Start([]), Edge(true)))
  {
    NextKeepsSound(Recorder(layout), Start([]), Edge(true));
  }

  /** A run of the queue in which a harmful overwrite loses the setting: a session is opened and
      receives a gain setter with its four bytes, then one with none. What is left to run is not
      what was accepted. */
  lemma {:induction false} RejectedOverwriteLosesASetter(layout: Layout, value: seq<Byte>)
    requires layout.Valid() && |value| == 4
    ensures var env := Recorder(layout);
            var h1 := Next(env, Start([]), Edge(true));
            Sound(env, h1) && Sound(env, Next(env, h1, Submit(104, Bytes(value))))
            && var h := Next(env, Next(env, h1, Submit(104, Bytes(value))), Submit(104, Absent(0)));
            && h.evicted == multiset{} && h.harmful == 1
            && Final(env, h.base, h.accepted) == [Stored(layout.dataMax, 104, Bytes(value))]
            && Final(env, h.world, ToRun(h)) == []
  {
    SessionOpens(layout);
    GainPayloads(layout, value);
    SettersLoseTheFirst(layout, Next(Recorder(layout), Start([]), Edge(true)),
                        Stored(layout.dataMax, 104, Bytes(value)), Stored(layout.dataMax, 104, Absent(0)));
  }

  // --- Whole runs -----------------------------------------------------------------------

  lemma {:induction false} EveryRunAccounts<S>(env: Env<S>, world: S, steps: seq<Step>, d: Command)
    requires env.layout.Valid()
    ensures AccountedFor(After(env, Start(world), steps), d)
  {
    if |steps| > 0 {
      var prior := steps[..|steps| - 1];
      EveryRunAccounts(env, world, prior, d);
      NextAccounts(env, After(env, Start(world), prior), steps[|steps| - 1], d);
    }
  }

  lemma {:induction false} EveryRunReportsOnce<S>(env: Env<S>, world: S, steps: seq<Step>, d: Command)
    requires env.layout.Valid()
    ensures d.id == EXPORT_ID ==> ExportReportedOnce(After(env, Start(world), steps), d)
    ensures d.id == DECRYPTION_ID ==> KeyReportedOnce(After(env, Start(world), steps), d)
  {
    if |steps| > 0 {
      var prior := steps[..|steps| - 1];
      var before, step := After(env, Start(world), prior), steps[|steps| - 1];
      EveryRunReportsOnce(env, world, prior, d);
      if d.id == EXPORT_ID {
        NextReportsExport(env, before, step, d);
      } else if d.id == DECRYPTION_ID {
        NextReportsKey(env, before, step, d);
      }
    }
  }

  lemma {:induction false} EveryRunRetains<S>(env: Env<S>, world: S, steps: seq<Step>)
    requires env.layout.Valid()
    ensures RetainedMatchesLogs(env, After(env, Start(world), steps))
  {
    if |steps| > 0 {
      var prior := steps[..|steps| - 1];
      EveryRunRetains(env, world, prior);
      NextRetains(env, After(env, Start(world), prior), steps[|steps| - 1]);
    }
  }

  lemma {:induction false} EveryRunAppliesInSession<S>(env: Env<S>, world: S, steps: seq<Step>)
    requires env.layout.Valid()
    ensures AppliedInOwnSession(After(env, Start(world), steps))
  {
    if |steps| > 0 {
      var prior := steps[..|steps| - 1];
      EveryRunAppliesInSession(env, world, prior);
      NextApplies(env, After(env, Start(world), prior), steps[|steps| - 1]);
    }
  }

  /** Over every run: each admitted command that owes a result is pending, in flight or
      published, copy for copy, and the retained sequence numbers count publications. */
  lemma {:induction false} ResultsArePublishedExactlyOnce<S>(env: Env<S>, world: S, steps: seq<Step>)
    requires env.layout.Valid()
    ensures var h := After(env, Start(world), steps);
            && (forall d: Command :: d.id == EXPORT_ID ==> ExportReportedOnce(h, d))
            && (forall d: Command :: d.id == DECRYPTION_ID ==> KeyReportedOnce(h, d))
            && h.q.retained.exported.sequence == SequenceAfter(|h.exportLog|)
            && h.q.retained.keys.sequence == SequenceAfter(|h.keyLog|)
            && (|h.exportLog| > 0 ==> 1 <= h.q.retained.exported.sequence)
            && (|h.keyLog| > 0 ==> 1 <= h.q.retained.keys.sequence)
  {
    var h := After(env, Start(world), steps);
    forall d: Command
      ensures d.id == EXPORT_ID ==> ExportReportedOnce(h, d)
      ensures d.id == DECRYPTION_ID ==> KeyReportedOnce(h, d)
    {
      EveryRunReportsOnce(env, world, steps, d);
    }
    EveryRunRetains(env, world, steps);
    ExportSequenceCounts(h.exportLog);
    KeySequenceCounts(h.keyLog);
  }

  /** Over every run: a closed session has an empty queue, nothing in flight and reports
      generation zero; everything pending, drained or evicted was accepted since the last
      session edge; and a decryption command was reported applied only under the
      generation it carried. */
  lemma {:induction false} SessionsAreIsolated<S>(env: Env<S>, world: S, steps: seq<Step>)
    requires env.layout.Valid()
    ensures var h := After(env, Start(world), steps);
            && (!h.q.open ==> h.q.pending == [] && h.stage.Resting?)
            && (ReportedGeneration(h.q) == 0 <==> !h.q.open)
            && (forall d :: AccountedFor(h, d))
            && AppliedCarry(h.keyLog)
  {
    var h := After(env, Start(world), steps);
    forall d ensures AccountedFor(h, d) {
      EveryRunAccounts(env, world, steps, d);
    }
    EveryRunAppliesInSession(env, world, steps);
  }

  lemma {:induction false} EveryRunMeans<S(!new)>(env: Env<S>, world: S, steps: seq<Step>)
    requires env.layout.Valid() && SettersOverwrite(env)
    ensures var h := After(env, Start(world), steps);
            RanInOrder(env, h) && LineMeansAccepted(env, h)
  {
    if |steps| > 0 {
      var prior := steps[..|steps| - 1];
      EveryRunMeans(env, world, prior);
      NextMeans(env, After(env, Start(world), prior), steps[|steps| - 1]);
    }
  }

  /** Over every run the decoder state is that of the commands run since the session edge; and
      as long as the session saw no overflow and no harmful overwrite, that state followed by
      what is left to run equals every accepted submission applied in order. */
  lemma {:induction false} CoalescingPreservesMeaning<S(!new)>(env: Env<S>, world: S, steps: seq<Step>)
    requires env.layout.Valid() && SettersOverwrite(env)
    ensures var h := After(env, Start(world), steps);
            RanInOrder(env, h) && MeaningPreserved(env, h)
  {
    EveryRunMeans(env, world, steps);
    var h := After(env, Start(world), steps);
    FinalInParts(env, h.base, h.ran, ToRun(h));
  }
}
