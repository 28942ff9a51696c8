/** What the engine's shared state says about the past: each field tied to the calls and moves
    that have happened, over every interleaving. */
module EngineHistory {
  import opened RunStatus
  import opened EngineLifecycle

  predicate SomeConfigures(s: State) {
    exists t :: 0 <= t < |s.threads| && InConfigure(s.threads[t])
  }

  predicate SomeRuns(s: State) {
    exists t :: 0 <= t < |s.threads| && Active(s.threads[t])
  }

  // --- Which calls are accepted ---------------------------------------------------------

  predicate Calls(s: State, m: Move) {
    m.t < |s.threads| && s.threads[m.t].Outside?
  }

  /** An engine is made: a call of init that finds memory while nobody configures. */
  predicate Makes(s: State, m: Move) {
    Calls(s, m) && m.a == CallInit(false) && !SomeConfigures(s)
  }

  predicate Destroys(s: State, m: Move) {
    Calls(s, m) && m.a.CallDestroy? && !SomeConfigures(s) && !SomeRuns(s)
  }

  /** The last move of configure, which installs the options or gives them up. */
  predicate Bootstraps(s: State, m: Move) {
    m.t < |s.threads| && s.threads[m.t].ConfigBootstrapping? && m.a.Continue?
  }

  /** The last move of a run. */
  predicate CleansUp(s: State, m: Move) {
    m.t < |s.threads| && s.threads[m.t].RunCollected? && m.a.Continue? && !SomeConfigures(s)
  }

  /** An engine has been made and not destroyed since. */
  ghost predicate Made(s: State, moves: seq<Move>)
    requires forall i :: 0 <= i < |moves| ==> moves[i].t < |s.threads|
  {
    && |moves| > 0
    && var prior, m := moves[..|moves| - 1], moves[|moves| - 1];
       Makes(Run(s, prior), m) || (Made(s, prior) && !Destroys(Run(s, prior), m))
  }

  /** Options have been installed, and since then no bootstrap failed, no run was cleaned up and
      no engine destroyed. */
  ghost predicate Installed(s: State, moves: seq<Move>)
    requires forall i :: 0 <= i < |moves| ==> moves[i].t < |s.threads|
  {
    && |moves| > 0
    && var prior, m := moves[..|moves| - 1], moves[|moves| - 1];
       var r := Run(s, prior);
       if Bootstraps(r, m) then m.a.ok else Installed(s, prior) && !CleansUp(r, m) && !Destroys(r, m)
  }

  /** The flags mean what their names say. */
  ghost predicate FlagsMean(s: State, made: bool, installed: bool) {
    && (s.g.slot.lock <==> SomeConfigures(s))
    && (s.g.slot.running <==> SomeRuns(s))
    && (s.g.engine.current.Some? <==> made)
    && (s.g.slot.configured <==> installed)
    && (installed ==> made) && (s.g.slot.lock ==> made)
    && s.g.engine.alive == (if s.g.engine.current.Some? then {s.g.engine.current.value} else {})
    && (s.g.engine.initialized <==> made)
  }

  /** One move, flag by flag. */
  lemma {:induction false} MoveAndSlot(g: Shared, t: nat, p: Pc, a: Action)
    requires g.slot.lock ==> !g.slot.running
    requires (InConfigure(p) ==> g.slot.lock) && (Active(p) ==> g.slot.running)
    requires g.slot.configured ==> g.engine.current.Some?
    ensures var (g', p') := Moved(g, t, p, a);
            && (g'.slot.lock <==> InConfigure(p') || (g.slot.lock && !InConfigure(p)))
            && (g'.slot.running <==> Active(p') || (g.slot.running && !Active(p)))
            && (g'.slot.configured <==>
                  if p.ConfigBootstrapping? && a.Continue? then a.ok
                  else && g.slot.configured && !(p.RunCollected? && a.Continue? && !g.slot.lock)
                       && !(p.Outside? && a.CallDestroy? && !g.slot.lock && !g.slot.running))
  {
  }

  lemma {:induction false} MoveAndObject(g: Shared, t: nat, p: Pc, a: Action)
    requires g.engine.initialized <==> g.engine.current.Some?
    requires g.engine.alive == if g.engine.current.Some? then {g.engine.current.value} else {}
    ensures var (g', p') := Moved(g, t, p, a);
            && (g'.engine.initialized <==> g'.engine.current.Some?)
            && g'.engine.alive == (if g'.engine.current.Some? then {g'.engine.current.value} else {})
            && (g'.engine.current.Some? <==>
                  || (p.Outside? && a == CallInit(false) && !g.slot.lock)
                  || (g.engine.current.Some? && !(p.Outside? && a.CallDestroy? && !g.slot.lock && !g.slot.running)))
  {
  }

  lemma {:induction false} OthersStay(s: State, t: nat, g': Shared, p': Pc)
    requires t < |s.threads| && LockInvariant(s) && RunInvariant(s)
    requires (s.g.slot.lock <==> SomeConfigures(s)) && (s.g.slot.running <==> SomeRuns(s))
    requires g'.slot.lock <==> InConfigure(p') || (s.g.slot.lock && !InConfigure(s.threads[t]))
    requires g'.slot.running <==> Active(p') || (s.g.slot.running && !Active(s.threads[t]))
    ensures var s' := State(g', s.threads[t := p']);
            (g'.slot.lock <==> SomeConfigures(s')) && (g'.slot.running <==> SomeRuns(s'))
  {
    var s' := State(g', s.threads[t := p']);
    assert s'.threads[t] == p';
    assert forall u :: 0 <= u < |s.threads| && u != t ==> s'.threads[u] == s.threads[u];
    if s.g.slot.lock && !InConfigure(s.threads[t]) {
      var u :| 0 <= u < |s.threads| && InConfigure(s.threads[u]);
      assert InConfigure(s'.threads[u]);
    }
    if s.g.slot.running && !Active(s.threads[t]) {
      var u :| 0 <= u < |s.threads| && Active(s.threads[u]);
      assert Active(s'.threads[u]);
    }
  }

  lemma {:induction false} MoveAndLockedEngine(g: Shared, t: nat, p: Pc, a: Action)
    requires g.slot.lock ==> g.engine.current.Some?
    requires InConfigure(p) ==> g.slot.lock
    ensures var (g', _) := Moved(g, t, p, a); g'.slot.lock ==> g'.engine.current.Some?
  {
  }

  lemma {:induction false} StepKeepsMeaning(s: State, m: Move, made: bool, installed: bool)
    requires m.t < |s.threads| && LockInvariant(s) && RunInvariant(s) && FlagsMean(s, made, installed)
    ensures FlagsMean(Step(s, m.t, m.a), Makes(s, m) || (made && !Destroys(s, m)),
                      if Bootstraps(s, m) then m.a.ok else installed && !CleansUp(s, m) && !Destroys(s, m))
  {
    var p := s.threads[m.t];
    assert InConfigure(p) ==> s.g.slot.lock;
    assert Active(p) ==> HoldsCapture(s.g, p.run);
    MoveAndSlot(s.g, m.t, p, m.a);
    MoveAndObject(s.g, m.t, p, m.a);
    MoveAndLockedEngine(s.g, m.t, p, m.a);
    OthersStay(s, m.t, Moved(s.g, m.t, p, m.a).0, Moved(s.g, m.t, p, m.a).1);
  }

  lemma {:induction false} EveryRunKeepsMeaning(s: State, moves: seq<Move>)
    requires Initial(s) && forall i :: 0 <= i < |moves| ==> moves[i].t < |s.threads|
    ensures FlagsMean(Run(s, moves), Made(s, moves), Installed(s, moves))
  {
    if |moves| > 0 {
      var prior := moves[..|moves| - 1];
      EveryRunKeepsMeaning(s, prior);
      EveryRunKeepsInvariants(s, prior);
      StepKeepsMeaning(Run(s, prior), moves[|moves| - 1], Made(s, prior), Installed(s, prior));
    }
  }

  /** In every interleaving, a call from outside is accepted exactly when the past allows it:
      configure when nobody configures or runs and there is an engine, run when moreover options
      are installed, stop when there is an engine, whatever else goes on. */
  lemma {:induction false} CallsAreAcceptedExactlyWhen(s: State, moves: seq<Move>, t: nat, session: nat)
    requires Initial(s) && forall i :: 0 <= i < |moves| ==> moves[i].t < |s.threads|
    requires t < |s.threads| && Run(s, moves).threads[t].Outside?
    ensures var r := Run(s, moves);
            && (Step(r, t, CallConfigure(session)).threads[t] == ConfigEntered(session)
                <==> !SomeConfigures(r) && !SomeRuns(r) && Made(s, moves))
            && (Step(r, t, CallRun).threads[t].EngineEntry?
                <==> !SomeConfigures(r) && !SomeRuns(r) && Made(s, moves) && Installed(s, moves))
            && (Step(r, t, CallStop).threads[t].StopLatching? <==> Made(s, moves))
  {
    EveryRunKeepsMeaning(s, moves);
  }

  /** In every interleaving there is exactly one live engine object between a successful init and
      the next accepted destroy, and none otherwise: nothing is leaked and nothing freed is used. */
  lemma {:induction false} EnginesAreNotLeaked(s: State, moves: seq<Move>)
    requires Initial(s) && forall i :: 0 <= i < |moves| ==> moves[i].t < |s.threads|
    ensures var engine := Run(s, moves).g.engine;
            && (engine.current.Some? <==> Made(s, moves))
            && engine.alive == (if engine.current.Some? then {engine.current.value} else {})
  {
    EveryRunKeepsMeaning(s, moves);
  }

  // --- When a session counts as initialized ---------------------------------------------

  /** The start hook looks at the latch and finds no stop. */
  predicate ReadsClear(s: State, m: Move) {
    m.t < |s.threads| && s.threads[m.t].HookFirst? && m.a.Continue? && !s.g.flags.latch
  }

  /** Configure starts the record of a new session. */
  predicate Restarts(s: State, m: Move) {
    m.t < |s.threads| && s.threads[m.t].ConfigEntered? && m.a.Continue?
  }

  /** A hook has read the latch clear, and no session has been started since. */
  ghost predicate ReadClearSince(s: State, moves: seq<Move>)
    requires forall i :: 0 <= i < |moves| ==> moves[i].t < |s.threads|
  {
    && |moves| > 0
    && var prior, m := moves[..|moves| - 1], moves[|moves| - 1];
       ReadsClear(Run(s, prior), m) || (ReadClearSince(s, prior) && !Restarts(Run(s, prior), m))
  }

  predicate SomeMarks(s: State) {
    exists t :: 0 <= t < |s.threads| && s.threads[t].HookMark?
  }

  /** Nothing has been written to the record since its session began. */
  predicate Untouched(r: RunRecord) {
    Unended(r) && !r.initialized
  }

  predicate Unended(r: RunRecord) {
    r.reason.Pending? && r.runCode == 0 && r.deviceError == 0 && r.inputKind == 0 && r.inputCode == 0
  }

  predicate BeforeMark(p: Pc) {
    p.EngineEntry? || p.EngineSetup? || p.HookFirst? || p.HookMark?
  }

  predicate AfterHookRead(p: Pc) {
    p.HookSecond? || p.HookRaise? || p.Decoding?
  }

  /** What a thread's place says about the record and the latch. */
  ghost predicate Tells(g: Shared, p: Pc) {
    && (p.ConfigBegun? || p.ConfigExitCleared? || p.ConfigBootstrapping? || BeforeMark(p) ==> Untouched(g.book.record))
    && (Active(p) && !p.RunCollected? ==> Unended(g.book.record))
    && (AfterHookRead(p) ==> g.book.record.initialized || g.flags.latch)
  }

  ghost predicate RecordInvariant(s: State) {
    && (forall t :: 0 <= t < |s.threads| ==> Tells(s.g, s.threads[t]))
    && (s.g.slot.configured && !s.g.slot.running ==> Untouched(s.g.book.record))
  }

  lemma {:induction false} MoveAndRecord(g: Shared, t: nat, p: Pc, a: Action)
    requires Tells(g, p) && (g.slot.configured && !g.slot.running ==> Untouched(g.book.record))
    requires InConfigure(p) ==> g.slot.lock && !g.slot.running
    requires g.slot.configured ==> g.engine.current.Some?
    ensures var (g', p') := Moved(g, t, p, a); Tells(g', p')
  {
  }

  lemma {:induction false} MoveAndOptions(g: Shared, t: nat, p: Pc, a: Action)
    requires Tells(g, p) && (g.slot.configured && !g.slot.running ==> Untouched(g.book.record))
    requires (InConfigure(p) ==> g.slot.lock && !g.slot.running) && (Active(p) ==> g.slot.running)
    requires g.slot.configured ==> g.engine.current.Some?
    ensures var (g', p') := Moved(g, t, p, a);
            && (g'.slot.configured && !g'.slot.running ==> Untouched(g'.book.record))
            && (!Active(p) && g.slot.running ==> g'.book.record == g.book.record && (g.flags.latch ==> g'.flags.latch))
            && (!InConfigure(p) && g.slot.lock && !g.slot.running ==> g'.book.record == g.book.record)
  {
  }

  lemma {:induction false} StepKeepsRecord(s: State, m: Move)
    requires m.t < |s.threads| && LockInvariant(s) && RunInvariant(s) && RecordInvariant(s)
    requires s.g.slot.configured ==> s.g.engine.current.Some?
    ensures RecordInvariant(Step(s, m.t, m.a))
  {
    var p := s.threads[m.t];
    assert Active(p) ==> HoldsCapture(s.g, p.run);
    assert Tells(s.g, p);
    MoveAndRecord(s.g, m.t, p, m.a);
    MoveAndOptions(s.g, m.t, p, m.a);
    RecordFacts(s, m.t, Moved(s.g, m.t, p, m.a).0, Moved(s.g, m.t, p, m.a).1);
  }

  lemma {:induction false} RecordFacts(s: State, t: nat, g': Shared, p': Pc)
    requires t < |s.threads| && LockInvariant(s) && RunInvariant(s) && RecordInvariant(s)
    requires Tells(g', p') && (g'.slot.configured && !g'.slot.running ==> Untouched(g'.book.record))
    requires !Active(s.threads[t]) && s.g.slot.running ==> g'.book.record == s.g.book.record && (s.g.flags.latch ==> g'.flags.latch)
    requires !InConfigure(s.threads[t]) && s.g.slot.lock && !s.g.slot.running ==> g'.book.record == s.g.book.record
    ensures RecordInvariant(State(g', s.threads[t := p']))
  {
    forall u | 0 <= u < |s.threads| && u != t
      ensures Tells(g', s.threads[u])
    {
      assert Tells(s.g, s.threads[u]);
      if Active(s.threads[u]) {
        assert HoldsCapture(s.g, s.threads[u].run);
        assert u < t ==> !Active(s.threads[t]);
      }
    }
  }

  lemma {:induction false} EveryRunKeepsRecord(s: State, moves: seq<Move>)
    requires Initial(s) && forall i :: 0 <= i < |moves| ==> moves[i].t < |s.threads|
    ensures RecordInvariant(Run(s, moves))
  {
    if |moves| > 0 {
      var prior := moves[..|moves| - 1];
      EveryRunKeepsRecord(s, prior);
      EveryRunKeepsMeaning(s, prior);
      EveryRunKeepsInvariants(s, prior);
      StepKeepsRecord(Run(s, prior), moves[|moves| - 1]);
    }
  }

  /** In every interleaving: past the start hook's first look, the session is marked initialized
      or a stop is latched; so a run that decodes with no stop latched is marked. */
  lemma {:induction false} DecodingIsInitialized(s: State, moves: seq<Move>, t: nat)
    requires Initial(s) && forall i :: 0 <= i < |moves| ==> moves[i].t < |s.threads|
    requires t < |s.threads| && AfterHookRead(Run(s, moves).threads[t])
    ensures var r := Run(s, moves);
            && (r.g.book.record.initialized || r.g.flags.latch)
            && (r.g.flags.latches == 0 ==> r.g.book.record.initialized)
  {
    EveryRunKeepsRecord(s, moves);
    EveryRunKeepsInvariants(s, moves);
    assert Tells(Run(s, moves).g, Run(s, moves).threads[t]);
  }

  /** In every interleaving: as long as a run is going on its record says nothing of an end. */
  lemma {:induction false} NothingEndsBeforeTheEnd(s: State, moves: seq<Move>, t: nat)
    requires Initial(s) && forall i :: 0 <= i < |moves| ==> moves[i].t < |s.threads|
    requires var p := if t < |s.threads| then Run(s, moves).threads[t] else Outside; Active(p) && !p.RunCollected?
    ensures Unended(Run(s, moves).g.book.record)
  {
    EveryRunKeepsRecord(s, moves);
    assert Tells(Run(s, moves).g, Run(s, moves).threads[t]);
  }

  /** The record says initialized, or is about to, exactly after a hook's clear look. */
  ghost predicate MarkInvariant(s: State, read: bool) {
    && (s.g.book.record.initialized ==> read)
    && (read ==> s.g.book.record.initialized || SomeMarks(s))
    && (SomeMarks(s) ==> read)
  }

  lemma {:induction false} MoveAndMark(g: Shared, t: nat, p: Pc, a: Action)
    requires InConfigure(p) ==> !g.slot.running
    requires Active(p) ==> g.slot.running
    ensures var (g', p') := Moved(g, t, p, a);
            && (p'.HookMark? <==> (p.HookMark? && !a.Continue?) || (p.HookFirst? && a.Continue? && !g.flags.latch))
            && (g'.book.record.initialized <==>
                  || (p.HookMark? && a.Continue?)
                  || (g.book.record.initialized && !(p.ConfigEntered? && a.Continue?)))
  {
  }

  lemma {:induction false} StepKeepsMark(s: State, m: Move, read: bool)
    requires m.t < |s.threads| && LockInvariant(s) && RunInvariant(s) && MarkInvariant(s, read)
    ensures MarkInvariant(Step(s, m.t, m.a), ReadsClear(s, m) || (read && !Restarts(s, m)))
  {
    var p, s' := s.threads[m.t], Step(s, m.t, m.a);
    assert Active(p) ==> HoldsCapture(s.g, p.run);
    MoveAndMark(s.g, m.t, p, m.a);
    assert forall u :: 0 <= u < |s.threads| && u != m.t ==> s'.threads[u] == s.threads[u];
    assert s'.threads[m.t].HookMark? ==> SomeMarks(s');
    assert p.HookMark? ==> SomeMarks(s);
    if SomeMarks(s) {
      var u :| 0 <= u < |s.threads| && s.threads[u].HookMark?;
      assert HoldsCapture(s.g, s.threads[u].run);
      assert u != m.t ==> s'.threads[u].HookMark?;
    }
  }

  lemma {:induction false} EveryRunKeepsMark(s: State, moves: seq<Move>)
    requires Initial(s) && forall i :: 0 <= i < |moves| ==> moves[i].t < |s.threads|
    ensures MarkInvariant(Run(s, moves), ReadClearSince(s, moves))
  {
    if |moves| > 0 {
      var prior := moves[..|moves| - 1];
      EveryRunKeepsMark(s, prior);
      EveryRunKeepsInvariants(s, prior);
      StepKeepsMark(Run(s, prior), moves[|moves| - 1], ReadClearSince(s, prior));
    }
  }

  /** In every interleaving the record says initialized if and only if this session's start hook
      has read the latch clear and is past the marking: a session stopped before that never
      counts as initialized. */
  lemma {:induction false} InitializedExactlyWhen(s: State, moves: seq<Move>)
    requires Initial(s) && forall i :: 0 <= i < |moves| ==> moves[i].t < |s.threads|
    ensures var r := Run(s, moves);
            r.g.book.record.initialized <==> ReadClearSince(s, moves) && !SomeMarks(r)
  {
    EveryRunKeepsMark(s, moves);
    EveryRunKeepsRecord(s, moves);
    var r := Run(s, moves);
    if SomeMarks(r) {
      var t :| 0 <= t < |r.threads| && r.threads[t].HookMark?;
      assert Tells(r.g, r.threads[t]);
    }
  }

  /** How often configure has gone on to rewrite the options. */
  ghost function Rewrites(s: State, moves: seq<Move>): nat
    requires forall i :: 0 <= i < |moves| ==> moves[i].t < |s.threads|
  {
    if |moves| == 0 then 0
    else
      var prior := moves[..|moves| - 1];
      Rewrites(s, prior) + (if Clears(Run(s, prior), moves[|moves| - 1]) then 1 else 0)
  }

  /** The version of the configuration counts the rewrites: a run that finds it unchanged has had
      its options left alone. */
  lemma {:induction false} RewritesAreCounted(s: State, moves: seq<Move>)
    requires forall i :: 0 <= i < |moves| ==> moves[i].t < |s.threads|
    ensures Run(s, moves).g.engine.version == s.g.engine.version + Rewrites(s, moves)
  {
    if |moves| > 0 {
      RewritesAreCounted(s, moves[..|moves| - 1]);
    }
  }

  // --- What a run and a configure leave on record ---------------------------------------

  /** In every interleaving: collecting a run writes the whole result and nothing else, and the
      reason is cancelled if a stop was latched since configure, completed or failed by the code
      otherwise. */
  lemma {:induction false} ResultIsRecordedInFull(s: State, moves: seq<Move>, t: nat, a: Action)
    requires Initial(s) && forall i :: 0 <= i < |moves| ==> moves[i].t < |s.threads|
    requires t < |s.threads| && Run(s, moves).threads[t].EngineLeft? && a.Continue?
    ensures var r := Run(s, moves);
            var was, now, p := r.g.book.record, Step(r, t, a).g.book.record, r.threads[t];
            && now.session == was.session == p.run.session && now.initialized == was.initialized
            && now.runCode == p.code && now.deviceError == a.deviceError
            && now.inputKind == a.inputKind && now.inputCode == a.inputCode
            && (now.reason.Cancelled? <==> StoredSince(s, moves))
            && (now.reason.Completed? <==> !StoredSince(s, moves) && p.code == 0)
            && (now.reason.Failed? <==> !StoredSince(s, moves) && p.code != 0)
  {
    CancelledIsRecordedExactlyWhen(s, moves, t, a);
    LatchIsSetExactlyWhen(s, moves);
    EveryRunKeepsInvariants(s, moves);
    assert HoldsCapture(Run(s, moves).g, Run(s, moves).threads[t].run);
  }

  /** A run leaves the engine with the code the engine returned, from wherever it returned. */
  lemma {:induction false} LeavingKeepsTheCode(s: State, t: nat, a: Action)
    requires t < |s.threads| && a.Continue? && !s.threads[t].EngineLeft?
    requires Step(s, t, a).threads[t].EngineLeft?
    ensures Active(s.threads[t]) && Step(s, t, a).threads[t].run == s.threads[t].run && Step(s, t, a).threads[t].code == a.code
    ensures s.threads[t].Decoding? || a.quit
  {
  }

  /** A whole configure call with good arguments, from a rested state: options are installed
      exactly when the bootstrap goes on; a bootstrap that neither goes on nor asks to exit is on
      record as a failed run of the new session; and nothing of the old record is left. */
  lemma {:induction false} ConfigureIsRecorded(g: Shared, t: nat, session: nat, bootstrap: Action)
    requires Rested(g) && bootstrap.Continue?
    ensures var (g', p') := ConfigureCall(g, t, session, true, bootstrap);
            var r := g'.book.record;
            && p'.Outside? && !g'.slot.lock && g'.flags == Flags(false, false, 0)
            && r.session == session && !r.initialized && (g'.slot.configured <==> bootstrap.ok)
            && (bootstrap.ok || bootstrap.quit ==> Untouched(r))
            && (!bootstrap.ok && !bootstrap.quit ==>
                  && r.reason.Failed? && r.runCode == STATUS_ERROR
                  && r.deviceError == bootstrap.deviceError
                  && r.inputKind == bootstrap.inputKind && r.inputCode == bootstrap.inputCode)
  {
    var (g1, p1) := Moved(g, t, Outside, CallConfigure(session));
    assert p1 == ConfigEntered(session);
    var (g2, p2) := Moved(g1, t, p1, Go());
    assert p2 == ConfigBegun && g2.book.record == Began(session);
    var (g3, p3) := Moved(g2, t, p2, Go());
    assert p3 == ConfigExitCleared && g3.book == g2.book;
    var (g4, p4) := Moved(g3, t, p3, Go());
    assert p4 == ConfigBootstrapping(session) && g4.book == g2.book && g4.flags == Flags(false, false, 0);
  }
}
