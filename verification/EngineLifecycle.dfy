/** The engine lifecycle as atomic steps of any number of threads. Init, destroy and the
    two ends of a run are single critical sections of the main lock; configure holds that
    lock over several steps; stop takes no lock at all. */
module EngineLifecycle {
  import opened RunStatus

  const STATUS_ERROR := -1
  const STATUS_BAD_STATE := -2

  /** What a run captured when it started: the engine object, the version of its
      configuration, and the session on record. */
  datatype Capture = Capture(engine: nat, version: nat, session: nat)

  datatype Pc =
    | Outside
    | ConfigEntered(session: nat)         // lock held, checks passed
    | ConfigBegun                         // session record restarted
    | ConfigExitCleared                   // exit flag cleared
    | ConfigBootstrapping(session: nat)   // stop latch cleared; options being rewritten
    | EngineEntry(run: Capture)           // run claimed; engine not yet entered
    | EngineSetup(run: Capture)           // engine has cleared the exit flag
    | HookFirst(run: Capture)             // start hook: about to read the latch
    | HookMark(run: Capture)              // about to mark the session initialized
    | HookSecond(run: Capture)            // about to read the latch again
    | HookRaise(run: Capture)             // about to raise the exit flag
    | Decoding(run: Capture)              // in the decode loop
    | EngineLeft(run: Capture, code: int) // engine returned; result not collected
    | RunCollected(run: Capture, code: int, stopped: bool)
    | StopLatching                        // stop accepted; about to set the latch
    | StopRaising                         // latch set; about to raise the exit flag

  datatype Maybe = None | Some(value: nat)

  /** The main lock and what it guards besides the engine object. */
  datatype Slot = Slot(lock: bool, holder: nat, configured: bool, running: bool)

  /** The allocated engine objects, the current one, how often its options were rewritten,
      and the flag that tells a stopper whether there is one. */
  datatype Engine = Engine(alive: set<nat>, next: nat, current: Maybe, version: nat, initialized: bool)

  /** The stop latch, the exit flag, and how many stops stored the latch since it was last
      cleared (read by no code). */
  datatype Flags = Flags(latch: bool, exitFlag: bool, latches: nat)

  /** The session record, and whose options are installed (the last two read by no code). */
  datatype Book = Book(record: RunRecord, configuredFor: nat, argvFailed: bool)

  datatype Shared = Shared(slot: Slot, engine: Engine, flags: Flags, book: Book)

  datatype State = State(g: Shared, threads: seq<Pc>)

  /** What a thread does next: enter a call, continue the one it is in, or (for the engine
      and its inputs) raise the exit flag. Hidden callees choose through the arguments. */
  datatype Action =
    | CallInit(outOfMemory: bool)
    | CallConfigure(session: nat)
    | CallRun
    | CallStop
    | CallDestroy
    | RaiseExit
    | Continue(ok: bool, quit: bool, code: int, deviceError: int, inputKind: int, inputCode: int)

  predicate InConfigure(p: Pc) {
    p.ConfigEntered? || p.ConfigBegun? || p.ConfigExitCleared? || p.ConfigBootstrapping?
  }

  predicate Active(p: Pc) {
    || p.EngineEntry? || p.EngineSetup? || p.HookFirst? || p.HookMark? || p.HookSecond? || p.HookRaise?
    || p.Decoding? || p.EngineLeft? || p.RunCollected?
  }

  function Entered(g: Shared, t: nat, a: Action): (Shared, Pc) {
    match a
    case CallInit(outOfMemory) =>
      if g.slot.lock || g.engine.current.Some? || outOfMemory then (g, Outside)
      else (g.(slot := g.slot.(configured := false),
               engine := Engine(g.engine.alive + {g.engine.next}, g.engine.next + 1, Some(g.engine.next), g.engine.version, true)),
            Outside)
    case CallConfigure(session) =>
      if g.slot.lock || g.engine.current.None? || g.slot.running then (g, Outside)
      else (g.(slot := g.slot.(lock := true, holder := t)), ConfigEntered(session))
    case CallRun =>
      if g.slot.lock || g.slot.running then (g, Outside)
      else if g.engine.current.None? || !g.slot.configured then
        (g.(book := g.book.(record := Finished(g.book.record, STATUS_BAD_STATE, false, 0))), Outside)
      else (g.(slot := g.slot.(running := true)),
            EngineEntry(Capture(g.engine.current.value, g.engine.version, g.book.record.session)))
    case CallStop => (g, if g.engine.initialized then StopLatching else Outside)
    case CallDestroy =>
      if g.slot.lock || g.slot.running then (g, Outside)
      else (g.(slot := g.slot.(configured := false),
               engine := g.engine.(initialized := false, current := None,
                                   alive := if g.engine.current.Some? then g.engine.alive - {g.engine.current.value} else g.engine.alive)),
            Outside)
    case _ => (g, Outside)
  }

  function Configuring(g: Shared, p: Pc, a: Action): (Shared, Pc)
    requires InConfigure(p) && a.Continue?
  {
    match p
    case ConfigEntered(session) => (g.(book := g.book.(record := Began(session))), ConfigBegun)
    case ConfigBegun =>
      // A failed argument conversion gives up here, leaving the earlier options installed.
      if !a.ok then (g.(slot := g.slot.(lock := false), book := g.book.(argvFailed := true)), Outside)
      else (g.(flags := g.flags.(exitFlag := false)), ConfigExitCleared)
    case ConfigExitCleared =>
      (g.(flags := g.flags.(latch := false, latches := 0), engine := g.engine.(version := g.engine.version + 1)),
       ConfigBootstrapping(g.book.record.session))
    case ConfigBootstrapping(session) =>
      var record := if a.ok || a.quit then g.book.record
                    else Collected(g.book.record, STATUS_ERROR, false, a.deviceError, a.inputKind, a.inputCode);
      (g.(slot := g.slot.(lock := false, configured := a.ok), book := Book(record, session, false)), Outside)
  }

  function Running(g: Shared, p: Pc, a: Action): (Shared, Pc)
    requires Active(p) && a.Continue?
  {
    match p
    case EngineEntry(run) =>
      if a.quit then (g, EngineLeft(run, a.code)) else (g.(flags := g.flags.(exitFlag := false)), EngineSetup(run))
    case EngineSetup(run) => (g, if a.quit then EngineLeft(run, a.code) else HookFirst(run))
    case HookFirst(run) => (g, if g.flags.latch then HookSecond(run) else HookMark(run))
    case HookMark(run) => (g.(book := g.book.(record := g.book.record.(initialized := true))), HookSecond(run))
    case HookSecond(run) => (g, if g.flags.latch then HookRaise(run) else Decoding(run))
    case HookRaise(run) => (g.(flags := g.flags.(exitFlag := true)), Decoding(run))
    case Decoding(run) => (g, if g.flags.exitFlag || a.quit then EngineLeft(run, a.code) else p)
    case EngineLeft(run, code) =>
      (g.(book := g.book.(record := Collected(g.book.record, code, g.flags.latch, a.deviceError, a.inputKind, a.inputCode))),
       RunCollected(run, code, g.flags.latch))
    case RunCollected(_, _, _) =>
      if g.slot.lock then (g, p) else (g.(slot := g.slot.(running := false, configured := false)), Outside)
  }

  /** What one atomic move of thread `t`, standing at `p`, does to the shared state and to
      itself; a move that is not possible changes nothing. */
  function Moved(g: Shared, t: nat, p: Pc, a: Action): (Shared, Pc) {
    if a.RaiseExit? then (g.(flags := g.flags.(exitFlag := true)), p)
    else if p.Outside? then Entered(g, t, a)
    else if !a.Continue? then (g, p)
    else if InConfigure(p) then Configuring(g, p, a)
    else if Active(p) then Running(g, p, a)
    else if p.StopLatching? then (g.(flags := g.flags.(latch := true, latches := g.flags.latches + 1)), StopRaising)
    else (g.(flags := g.flags.(exitFlag := true)), Outside)
  }

  function Step(s: State, t: nat, a: Action): (r: State)
    requires t < |s.threads|
    ensures |r.threads| == |s.threads|
  {
    var (g, p) := Moved(s.g, t, s.threads[t], a);
    State(g, s.threads[t := p])
  }

  datatype Move = Move(t: nat, a: Action)

  function Run(s: State, moves: seq<Move>): (r: State)
    requires forall i :: 0 <= i < |moves| ==> moves[i].t < |s.threads|
    ensures |r.threads| == |s.threads|
  {
    if |moves| == 0 then s
    else
      var m := moves[|moves| - 1];
      Step(Run(s, moves[..|moves| - 1]), m.t, m.a)
  }

  ghost predicate Initial(s: State) {
    && s.g.slot == Slot(false, s.g.slot.holder, false, false)
    && s.g.engine == Engine({}, s.g.engine.next, None, s.g.engine.version, false)
    && s.g.flags == Flags(false, false, 0)
    && s.g.book == Book(UNSTARTED, 0, false)
    && forall t :: 0 <= t < |s.threads| ==> s.threads[t] == Outside
  }

  // --- Lifetime safety ------------------------------------------------------------------

  /** The main lock is held exactly by the thread inside configure, and no run is active
      meanwhile. */
  ghost predicate LockInvariant(s: State) {
    && (s.g.slot.lock ==> s.g.slot.holder < |s.threads| && InConfigure(s.threads[s.g.slot.holder]) && !s.g.slot.running)
    && (forall t :: 0 <= t < |s.threads| && InConfigure(s.threads[t]) ==> s.g.slot.lock && s.g.slot.holder == t)
  }

  lemma {:induction false} MoveAndLock(g: Shared, t: nat, p: Pc, a: Action)
    requires g.slot.lock ==> !g.slot.running
    requires InConfigure(p) ==> g.slot.lock
    ensures var (g', p') := Moved(g, t, p, a);
            && (g'.slot.lock ==> !g'.slot.running)
            && (InConfigure(p') ==> g'.slot.lock && g'.slot.holder == (if InConfigure(p) then g.slot.holder else t))
            && (InConfigure(p) && !InConfigure(p') ==> !g'.slot.lock)
            && (!InConfigure(p) && g.slot.lock ==> g'.slot.lock && g'.slot.holder == g.slot.holder && !InConfigure(p'))
            && (!InConfigure(p) && !InConfigure(p') ==> g'.slot.lock == g.slot.lock)
  {
  }

  lemma {:induction false} StepKeepsLock(s: State, t: nat, a: Action)
    requires t < |s.threads| && LockInvariant(s)
    ensures LockInvariant(Step(s, t, a))
  {
    MoveAndLock(s.g, t, s.threads[t], a);
  }

  ghost predicate HoldsCapture(g: Shared, run: Capture) {
    && g.slot.running && g.engine.current == Some(run.engine) && run.engine in g.engine.alive
    && g.engine.version == run.version && g.book.record.session == run.session
  }

  ghost predicate EngineInvariant(g: Shared) {
    && (g.engine.current.Some? ==> g.engine.current.value in g.engine.alive)
    && (g.engine.initialized <==> g.engine.current.Some?)
    && (g.slot.running ==> g.engine.current.Some?)
  }

  /** At most one run is active, and while one is, its engine object is the live one, its
      configuration has not been rewritten, and its session is still on record. */
  ghost predicate RunInvariant(s: State) {
    && (forall t, u :: 0 <= t < u < |s.threads| ==> !(Active(s.threads[t]) && Active(s.threads[u])))
    && (forall t :: 0 <= t < |s.threads| && Active(s.threads[t]) ==> HoldsCapture(s.g, s.threads[t].run))
    && EngineInvariant(s.g)
  }

  lemma {:induction false} MoveAndEngine(g: Shared, t: nat, p: Pc, a: Action)
    requires EngineInvariant(g)
    ensures EngineInvariant(Moved(g, t, p, a).0)
  {
  }

  /** A move claims a run only when none is active, keeps a run it is in, and leaves the
      capture of another thread's run alone. */
  lemma {:induction false} MoveAndRun(g: Shared, t: nat, p: Pc, a: Action)
    requires EngineInvariant(g)
    requires InConfigure(p) ==> !g.slot.running
    requires Active(p) ==> HoldsCapture(g, p.run)
    ensures var (g', p') := Moved(g, t, p, a);
            && (Active(p') ==> HoldsCapture(g', p'.run))
            && (Active(p') && !Active(p) ==> !g.slot.running)
            && (!Active(p) && g.slot.running ==> KeepsCapture(g, g'))
  {
  }

  ghost predicate KeepsCapture(g: Shared, g': Shared) {
    && g'.slot.running && g'.engine.current == g.engine.current && g'.engine.alive == g.engine.alive
    && g'.engine.version == g.engine.version && g'.book.record == g.book.record
  }

  lemma {:induction false} StepKeepsRun(s: State, t: nat, a: Action)
    requires t < |s.threads| && LockInvariant(s) && RunInvariant(s)
    ensures RunInvariant(Step(s, t, a))
  {
    MoveAndEngine(s.g, t, s.threads[t], a);
    MoveAndRun(s.g, t, s.threads[t], a);
    RunFacts(s, t, Moved(s.g, t, s.threads[t], a).0, Moved(s.g, t, s.threads[t], a).1);
  }

  lemma {:induction false} RunFacts(s: State, t: nat, g': Shared, p': Pc)
    requires t < |s.threads| && RunInvariant(s) && EngineInvariant(g')
    requires Active(p') ==> HoldsCapture(g', p'.run)
    requires Active(p') && !Active(s.threads[t]) ==> !s.g.slot.running
    requires !Active(s.threads[t]) && s.g.slot.running ==> KeepsCapture(s.g, g')
    ensures RunInvariant(State(g', s.threads[t := p']))
  {
    var threads' := s.threads[t := p'];
    forall u | 0 <= u < |threads'| && Active(threads'[u])
      ensures HoldsCapture(g', threads'[u].run) && (u != t ==> !Active(p'))
    {
      if u != t {
        assert threads'[u] == s.threads[u];
        assert HoldsCapture(s.g, s.threads[u].run);
      }
    }
  }

  // --- No lost stop ---------------------------------------------------------------------

  ghost predicate StopperBetweenStores(s: State) {
    exists t :: 0 <= t < |s.threads| && s.threads[t].StopRaising?
  }

  /** The latch records whether any stop has stored it since it was cleared; and while the
      decode loop runs, a set latch means the exit flag is up or about to be raised. */
  ghost predicate StopInvariant(s: State) {
    && (s.g.flags.latch <==> s.g.flags.latches > 0)
    && (forall t :: 0 <= t < |s.threads| && s.threads[t].Decoding? && s.g.flags.latch ==>
          s.g.flags.exitFlag || StopperBetweenStores(s))
  }

  lemma {:induction false} MoveAndStop(g: Shared, t: nat, p: Pc, a: Action)
    requires g.flags.latch <==> g.flags.latches > 0
    ensures var (g', p') := Moved(g, t, p, a);
            && (g'.flags.latch <==> g'.flags.latches > 0)
            && (p'.Decoding? && g'.flags.latch && !g'.flags.exitFlag ==> p.Decoding? && g.flags == g'.flags)
            && (!Active(p) && !InConfigure(p) ==>
                  && (g.flags.exitFlag ==> g'.flags.exitFlag)
                  && (g'.flags.latch ==> g.flags.latch || p'.StopRaising?)
                  && (p.StopRaising? && !p'.StopRaising? ==> g'.flags.exitFlag))
            && (p.Decoding? && p'.Decoding? && !g'.flags.exitFlag ==> g.flags == g'.flags)
  {
  }

  lemma {:induction false} StepKeepsStop(s: State, t: nat, a: Action)
    requires t < |s.threads| && LockInvariant(s) && RunInvariant(s) && StopInvariant(s)
    ensures StopInvariant(Step(s, t, a))
  {
    MoveAndStop(s.g, t, s.threads[t], a);
    StopFacts(s, t, Moved(s.g, t, s.threads[t], a).0, Moved(s.g, t, s.threads[t], a).1);
  }

  lemma {:induction false} StopFacts(s: State, t: nat, g': Shared, p': Pc)
    requires t < |s.threads| && LockInvariant(s) && RunInvariant(s) && StopInvariant(s)
    requires g'.flags.latch <==> g'.flags.latches > 0
    requires var p, g := s.threads[t], s.g;
             && (p'.Decoding? && g'.flags.latch && !g'.flags.exitFlag ==> p.Decoding? && g.flags == g'.flags)
             && (!Active(p) && !InConfigure(p) ==>
                   && (g.flags.exitFlag ==> g'.flags.exitFlag)
                   && (g'.flags.latch ==> g.flags.latch || p'.StopRaising?)
                   && (p.StopRaising? && !p'.StopRaising? ==> g'.flags.exitFlag))
    ensures StopInvariant(State(g', s.threads[t := p']))
  {
    var s' := State(g', s.threads[t := p']);
    forall u | 0 <= u < |s.threads| && s'.threads[u].Decoding? && g'.flags.latch && !g'.flags.exitFlag
      ensures StopperBetweenStores(s')
    {
      if p'.StopRaising? {
        assert s'.threads[t].StopRaising?;
      } else {
        assert s.threads[u].Decoding?;
        assert HoldsCapture(s.g, s.threads[u].run);
        assert s.g.flags.latch && !s.g.flags.exitFlag;
        var v :| 0 <= v < |s.threads| && s.threads[v].StopRaising?;
        assert v != t;
        assert s'.threads[v].StopRaising?;
      }
    }
  }

  // --- Results --------------------------------------------------------------------------

  ghost predicate ResultOnRecord(g: Shared, p: Pc) {
    p.RunCollected? ==> g.book.record.reason == FinishReason(p.code, p.stopped) && g.book.record.runCode == p.code
  }

  ghost predicate OptionsOnRecord(g: Shared) {
    g.slot.configured && !g.book.argvFailed && !g.slot.lock ==> g.book.configuredFor == g.book.record.session
  }

  /** A collected run's result stays on record until the run gives up its slot; and installed
      options belong to the session on record unless an argument conversion has failed since
      they were installed. */
  ghost predicate ResultInvariant(s: State) {
    && (forall t :: 0 <= t < |s.threads| ==> ResultOnRecord(s.g, s.threads[t]))
    && (forall t :: 0 <= t < |s.threads| && s.threads[t].ConfigBootstrapping? ==> s.threads[t].session == s.g.book.record.session)
    && OptionsOnRecord(s.g)
  }

  lemma {:induction false} MoveAndResult(g: Shared, t: nat, p: Pc, a: Action)
    requires ResultOnRecord(g, p) && OptionsOnRecord(g)
    requires p.ConfigBootstrapping? ==> p.session == g.book.record.session
    requires InConfigure(p) ==> g.slot.lock
    requires Active(p) ==> g.slot.running
    ensures var (g', p') := Moved(g, t, p, a);
            && ResultOnRecord(g', p') && OptionsOnRecord(g')
            && (p'.ConfigBootstrapping? ==> p'.session == g'.book.record.session)
            && (!Active(p) && !InConfigure(p) && (g.slot.running || g.slot.lock) ==> g'.book == g.book)
  {
  }

  lemma {:induction false} StepKeepsResult(s: State, t: nat, a: Action)
    requires t < |s.threads| && LockInvariant(s) && RunInvariant(s) && ResultInvariant(s)
    ensures ResultInvariant(Step(s, t, a))
  {
    MoveAndResult(s.g, t, s.threads[t], a);
    ResultFacts(s, t, Moved(s.g, t, s.threads[t], a).0, Moved(s.g, t, s.threads[t], a).1);
  }

  lemma {:induction false} ResultFacts(s: State, t: nat, g': Shared, p': Pc)
    requires t < |s.threads| && LockInvariant(s) && RunInvariant(s) && ResultInvariant(s)
    requires ResultOnRecord(g', p') && OptionsOnRecord(g')
    requires p'.ConfigBootstrapping? ==> p'.session == g'.book.record.session
    requires !Active(s.threads[t]) && !InConfigure(s.threads[t]) && (s.g.slot.running || s.g.slot.lock) ==> g'.book == s.g.book
    ensures ResultInvariant(State(g', s.threads[t := p']))
  {
    forall u | 0 <= u < |s.threads| && u != t
      ensures ResultOnRecord(g', s.threads[u])
      ensures s.threads[u].ConfigBootstrapping? ==> s.threads[u].session == g'.book.record.session
    {
      assert ResultOnRecord(s.g, s.threads[u]);
      if Active(s.threads[u]) {
        assert HoldsCapture(s.g, s.threads[u].run);
      }
    }
  }

  // --- Whole runs -----------------------------------------------------------------------

  lemma {:induction false} EveryRunKeepsInvariants(s: State, moves: seq<Move>)
    requires Initial(s) && forall i :: 0 <= i < |moves| ==> moves[i].t < |s.threads|
    ensures var r := Run(s, moves);
            LockInvariant(r) && RunInvariant(r) && StopInvariant(r) && ResultInvariant(r)
  {
    if |moves| > 0 {
      var prior, m := moves[..|moves| - 1], moves[|moves| - 1];
      EveryRunKeepsInvariants(s, prior);
      var before := Run(s, prior);
      StepKeepsLock(before, m.t, m.a);
      StepKeepsRun(before, m.t, m.a);
      StepKeepsStop(before, m.t, m.a);
      StepKeepsResult(before, m.t, m.a);
    }
  }

  /** In every interleaving at most one run is active, and while it is, nothing frees or
      rewrites what it captured, and no session record is restarted under it. */
  lemma {:induction false} ActiveRunKeepsWhatItCaptured(s: State, moves: seq<Move>, t: nat, u: nat)
    requires Initial(s) && forall i :: 0 <= i < |moves| ==> moves[i].t < |s.threads|
    requires t < |s.threads| && u < |s.threads| && Active(Run(s, moves).threads[t])
    ensures var r := Run(s, moves);
            && HoldsCapture(r.g, r.threads[t].run)
            && (Active(r.threads[u]) ==> u == t)
            && !InConfigure(r.threads[u])
  {
    EveryRunKeepsInvariants(s, moves);
  }

  /** In every interleaving with any number of stoppers: once the decode loop is running, a
      stop stored since the latch was cleared has raised the exit flag, or a stopper is
      between its two stores; with the flag up, the loop's next move leaves it. */
  lemma {:induction false} NoLostStop(s: State, moves: seq<Move>, t: nat, a: Action)
    requires Initial(s) && forall i :: 0 <= i < |moves| ==> moves[i].t < |s.threads|
    requires t < |s.threads| && Run(s, moves).threads[t].Decoding? && Run(s, moves).g.flags.latches > 0 && a.Continue?
    ensures var r := Run(s, moves);
            && (r.g.flags.exitFlag || StopperBetweenStores(r))
            && (r.g.flags.exitFlag ==> Step(r, t, a).threads[t].EngineLeft?)
  {
    EveryRunKeepsInvariants(s, moves);
  }

  /** Once latched, a stop stays latched as long as the run is active, whatever any thread
      does: only configure clears the latch, and it cannot be under way. */
  lemma {:induction false} LatchHoldsThroughoutARun(s: State, moves: seq<Move>, t: nat, u: nat, a: Action)
    requires Initial(s) && forall i :: 0 <= i < |moves| ==> moves[i].t < |s.threads|
    requires t < |s.threads| && Active(Run(s, moves).threads[t]) && Run(s, moves).g.flags.latch
    requires u < |s.threads|
    ensures Step(Run(s, moves), u, a).g.flags.latch
  {
    ActiveRunKeepsWhatItCaptured(s, moves, t, u);
  }

  // --- How long a result is retained ----------------------------------------------------

  /** The move enters configure, which is about to restart the session record. */
  predicate Configures(s: State, m: Move) {
    m.t < |s.threads| && s.threads[m.t].Outside? && m.a.CallConfigure? && !s.g.slot.lock && s.g.engine.current.Some? && !s.g.slot.running
  }

  /** The move calls run while nothing runs and nothing runnable is configured: the call is
      rejected, and says so on the record. */
  predicate RejectsRun(s: State, m: Move) {
    && m.t < |s.threads| && s.threads[m.t].Outside? && m.a.CallRun? && !s.g.slot.lock && !s.g.slot.running
    && (s.g.engine.current.None? || !s.g.slot.configured)
  }

  ghost predicate NeverConfigures(s: State, moves: seq<Move>)
    requires forall i :: 0 <= i < |moves| ==> moves[i].t < |s.threads|
  {
    |moves| > 0 ==>
      var prior := moves[..|moves| - 1];
      NeverConfigures(s, prior) && !Configures(Run(s, prior), moves[|moves| - 1])
  }

  ghost predicate EverRejectsRun(s: State, moves: seq<Move>)
    requires forall i :: 0 <= i < |moves| ==> moves[i].t < |s.threads|
  {
    && |moves| > 0
    && var prior := moves[..|moves| - 1];
       EverRejectsRun(s, prior) || RejectsRun(Run(s, prior), moves[|moves| - 1])
  }

  /** The record of a run that ended with `code`, and of a rejected call after it. */
  ghost predicate Retains(record: RunRecord, session: nat, code: int, stopped: bool, rejected: bool) {
    && record.session == session
    && record.reason == (if rejected then Failed else FinishReason(code, stopped))
    && record.runCode == (if rejected then STATUS_BAD_STATE else code)
  }

  /** A thread that no longer writes the result: outside configure, and past the engine. */
  predicate Settled(p: Pc) {
    !InConfigure(p) && (Active(p) ==> p.RunCollected?)
  }

  /** The result is on record, and no thread is on its way to write another. */
  ghost predicate Aftermath(s: State, session: nat, code: int, stopped: bool, rejected: bool) {
    && Retains(s.g.book.record, session, code, stopped, rejected)
    && !s.g.slot.lock && (s.g.slot.configured ==> s.g.slot.running)
    && forall t :: 0 <= t < |s.threads| ==> Settled(s.threads[t])
  }

  lemma {:induction false} AftermathLasts(s: State, m: Move, session: nat, code: int, stopped: bool, rejected: bool)
    requires m.t < |s.threads| && Aftermath(s, session, code, stopped, rejected) && !Configures(s, m)
    ensures Aftermath(Step(s, m.t, m.a), session, code, stopped, rejected || RejectsRun(s, m))
  {
    assert Settled(s.threads[m.t]);
  }

  lemma {:induction false} AftermathOfRun(s: State, t: nat)
    requires t < |s.threads| && LockInvariant(s) && RunInvariant(s) && ResultInvariant(s) && s.threads[t].RunCollected?
    ensures Aftermath(s, s.threads[t].run.session, s.threads[t].code, s.threads[t].stopped, false)
  {
    assert HoldsCapture(s.g, s.threads[t].run) && ResultOnRecord(s.g, s.threads[t]);
    forall u | 0 <= u < |s.threads|
      ensures Settled(s.threads[u])
    {
      assert u < t ==> !(Active(s.threads[u]) && Active(s.threads[t]));
      assert t < u ==> !(Active(s.threads[t]) && Active(s.threads[u]));
    }
  }

  lemma {:induction false} AftermathOfMoves(s: State, more: seq<Move>, session: nat, code: int, stopped: bool)
    requires forall i :: 0 <= i < |more| ==> more[i].t < |s.threads|
    requires Aftermath(s, session, code, stopped, false) && NeverConfigures(s, more)
    ensures Aftermath(Run(s, more), session, code, stopped, EverRejectsRun(s, more))
  {
    if |more| > 0 {
      var prior := more[..|more| - 1];
      AftermathOfMoves(s, prior, session, code, stopped);
      AftermathLasts(Run(s, prior), more[|more| - 1], session, code, stopped, EverRejectsRun(s, prior));
    }
  }

  /** In every interleaving, once a run's result is collected it is retained across cleanup
      and whatever else happens until the next configure, except that a rejected call of run
      overwrites it with its own failure under the same session. */
  lemma {:induction false} RunResultIsRetained(s: State, moves: seq<Move>, t: nat, more: seq<Move>)
    requires Initial(s) && forall i :: 0 <= i < |moves| ==> moves[i].t < |s.threads|
    requires t < |s.threads| && Run(s, moves).threads[t].RunCollected?
    requires (forall i :: 0 <= i < |more| ==> more[i].t < |s.threads|) && NeverConfigures(Run(s, moves), more)
    ensures var r, p := Run(s, moves), Run(s, moves).threads[t];
            Retains(Run(r, more).g.book.record, p.run.session, p.code, p.stopped, EverRejectsRun(r, more))
  {
    EveryRunKeepsInvariants(s, moves);
    var r, p := Run(s, moves), Run(s, moves).threads[t];
    AftermathOfRun(r, t);
    AftermathOfMoves(r, more, p.run.session, p.code, p.stopped);
  }

  /** So the reason survives until the next configure if and only if the run failed anyway or
      no call of run was rejected: a short failure always does, a completed or stopped run
      does not survive a rejected call. */
  lemma {:induction false} ReasonSurvivesExactlyWhen(s: State, moves: seq<Move>, t: nat, more: seq<Move>)
    requires Initial(s) && forall i :: 0 <= i < |moves| ==> moves[i].t < |s.threads|
    requires t < |s.threads| && Run(s, moves).threads[t].RunCollected?
    requires (forall i :: 0 <= i < |more| ==> more[i].t < |s.threads|) && NeverConfigures(Run(s, moves), more)
    ensures var r, p := Run(s, moves), Run(s, moves).threads[t];
            && Run(r, more).g.book.record.session == p.run.session
            && (Run(r, more).g.book.record.reason == FinishReason(p.code, p.stopped)
                <==> (!p.stopped && p.code != 0) || !EverRejectsRun(r, more))
  {
    RunResultIsRetained(s, moves, t, more);
  }

  // --- What the assumptions are needed for ----------------------------------------------

  /** The ordinary continuation of a call. */
  function Go(): Action {
    Continue(true, false, 0, 0, 0, 0)
  }

  /** A latched stop is wiped by exactly one move: the one with which configure clears the
      latch. */
  lemma {:induction false} LatchIsWipedExactlyByConfigure(s: State, t: nat, a: Action)
    requires t < |s.threads| && s.g.flags.latch
    ensures !Step(s, t, a).g.flags.latch <==> Clears(s, Move(t, a))
  {
  }

  /** The move is configure's clearing of the latch. */
  predicate Clears(s: State, m: Move) {
    m.t < |s.threads| && s.threads[m.t].ConfigExitCleared? && m.a.Continue?
  }

  /** The move is a stop's store of the latch. */
  predicate Stores(s: State, m: Move) {
    m.t < |s.threads| && s.threads[m.t].StopLatching? && m.a.Continue?
  }

  /** The move resets the exit flag: in configure, or at the entry of the engine. */
  predicate Resets(s: State, m: Move) {
    && m.t < |s.threads| && m.a.Continue?
    && ((s.threads[m.t].ConfigBegun? && m.a.ok) || (s.threads[m.t].EngineEntry? && !m.a.quit))
  }

  /** The move raises the exit flag: from inside the engine, from the start hook, or from a stop. */
  predicate Raises(s: State, m: Move) {
    && m.t < |s.threads|
    && (m.a.RaiseExit? || (m.a.Continue? && (s.threads[m.t].StopRaising? || s.threads[m.t].HookRaise?)))
  }

  ghost predicate EverClears(s: State, moves: seq<Move>)
    requires forall i :: 0 <= i < |moves| ==> moves[i].t < |s.threads|
  {
    && |moves| > 0
    && var prior := moves[..|moves| - 1];
       EverClears(s, prior) || Clears(Run(s, prior), moves[|moves| - 1])
  }

  /** Some stop of these moves stored the latch, and no later one of them cleared it. */
  ghost predicate StoredSince(s: State, moves: seq<Move>)
    requires forall i :: 0 <= i < |moves| ==> moves[i].t < |s.threads|
  {
    && |moves| > 0
    && var prior, m := moves[..|moves| - 1], moves[|moves| - 1];
       Stores(Run(s, prior), m) || (StoredSince(s, prior) && !Clears(Run(s, prior), m))
  }

  /** Some of these moves raised the exit flag, and no later one reset it. */
  ghost predicate RaisedSince(s: State, moves: seq<Move>)
    requires forall i :: 0 <= i < |moves| ==> moves[i].t < |s.threads|
  {
    && |moves| > 0
    && var prior, m := moves[..|moves| - 1], moves[|moves| - 1];
       Raises(Run(s, prior), m) || (RaisedSince(s, prior) && !Resets(Run(s, prior), m))
  }

  lemma {:induction false} MoveAndFlags(s: State, m: Move)
    requires m.t < |s.threads|
    ensures var flags := Step(s, m.t, m.a).g.flags;
            && (flags.latch <==> Stores(s, m) || (s.g.flags.latch && !Clears(s, m)))
            && (flags.exitFlag <==> Raises(s, m) || (s.g.flags.exitFlag && !Resets(s, m)))
  {
  }

  /** Over any moves of any threads, from any state: at the end the latch is set if and only if
      a stop stored it after the last clearing, or it was set at the start and never cleared. */
  lemma {:induction false} LatchIsSetExactlyWhen(s: State, moves: seq<Move>)
    requires forall i :: 0 <= i < |moves| ==> moves[i].t < |s.threads|
    ensures Run(s, moves).g.flags.latch <==> StoredSince(s, moves) || (s.g.flags.latch && !EverClears(s, moves))
  {
    if |moves| > 0 {
      var prior := moves[..|moves| - 1];
      LatchIsSetExactlyWhen(s, prior);
      MoveAndFlags(Run(s, prior), moves[|moves| - 1]);
    }
  }

  lemma {:induction false} FlagIsUpExactlyWhen(s: State, moves: seq<Move>)
    requires (forall i :: 0 <= i < |moves| ==> moves[i].t < |s.threads|) && !s.g.flags.exitFlag
    ensures Run(s, moves).g.flags.exitFlag <==> RaisedSince(s, moves)
  {
    if |moves| > 0 {
      var prior := moves[..|moves| - 1];
      FlagIsUpExactlyWhen(s, prior);
      MoveAndFlags(Run(s, prior), moves[|moves| - 1]);
    }
  }

  /** In every interleaving the decode loop that does not end by itself ends at its next move if
      and only if the exit flag was raised after its last reset, which is that of the engine's
      entry: so a stop whose latch configure wiped still ends the run when its raise comes late
      enough, and is lost when it came before and nothing else raises the flag. */
  lemma {:induction false} DecodingIsStoppedExactlyWhen(s: State, moves: seq<Move>, t: nat, a: Action)
    requires Initial(s) && forall i :: 0 <= i < |moves| ==> moves[i].t < |s.threads|
    requires t < |s.threads| && Run(s, moves).threads[t].Decoding? && a.Continue? && !a.quit
    ensures Step(Run(s, moves), t, a).threads[t].EngineLeft? <==> RaisedSince(s, moves)
  {
    FlagIsUpExactlyWhen(s, moves);
  }

  /** In every interleaving a run is recorded as cancelled if and only if a stop stored the latch
      after configure's clearing: how the engine was left does not matter. */
  lemma {:induction false} CancelledIsRecordedExactlyWhen(s: State, moves: seq<Move>, t: nat, a: Action)
    requires Initial(s) && forall i :: 0 <= i < |moves| ==> moves[i].t < |s.threads|
    requires t < |s.threads| && Run(s, moves).threads[t].EngineLeft? && a.Continue?
    ensures var r := Run(s, moves);
            && (Step(r, t, a).g.book.record.reason == Cancelled <==> StoredSince(s, moves))
            && (StoredSince(s, moves) <==> r.g.flags.latches > 0)
  {
    LatchIsSetExactlyWhen(s, moves);
    EveryRunKeepsInvariants(s, moves);
  }

  /** What is left of configure once it has begun, with no other thread moving. */
  function RestOfConfigure(g: Shared, t: nat): (Shared, Pc) {
    var (g1, p1) := Moved(g, t, ConfigBegun, Go());
    var (g2, p2) := Moved(g1, t, p1, Go());
    Moved(g2, t, p2, Go())
  }

  /** A call of run up to its first move in the decode loop, with no other thread moving. */
  function RunUntilDecoding(g: Shared, t: nat): (Shared, Pc) {
    var (g1, p1) := Moved(g, t, Outside, CallRun);
    var (g2, p2) := Moved(g1, t, p1, Go());
    var (g3, p3) := Moved(g2, t, p2, Go());
    var (g4, p4) := Moved(g3, t, p3, Go());
    var (g5, p5) := Moved(g4, t, p4, Go());
    Moved(g5, t, p5, Go())
  }

  /** A stop that makes both stores before configure clears is lost, whatever was stored: from
      any state in which configure has begun under its lock, its rest wipes latch and exit flag,
      and the run that follows decodes with neither set. The host must reject stops while it is
      configuring, as the comment on the latch says. */
  lemma {:induction false} StopDuringConfigureIsLost(g: Shared, t: nat)
    requires g.slot.lock && !g.slot.running && g.engine.current.Some?
    ensures var (g', p') := RestOfConfigure(g, t);
            var (g'', p'') := RunUntilDecoding(g', t);
            && p'.Outside? && g'.flags == Flags(false, false, 0)
            && p''.Decoding? && g''.flags == Flags(false, false, 0)
  {
    RestOfConfigureWipes(g, t);
    RunDecodes(RestOfConfigure(g, t).0, t);
  }

  /** A stop that latches before the clearing and raises after the engine's entry ends the run all
      the same; but its latch is gone, and with code 0 the run is recorded as completed. */
  lemma {:induction false} StopAcrossConfigureEndsTheRunAsCompleted(g: Shared, t: nat, stopper: nat)
    requires g.slot.lock && !g.slot.running && g.engine.current.Some? && stopper != t
    ensures var (g1, _) := RestOfConfigure(g, t);
            var (g2, p2) := RunUntilDecoding(g1, t);
            var (g3, p3) := Moved(g2, stopper, StopRaising, Go());
            var (g4, p4) := Moved(g3, t, p2, Go());
            && p3.Outside? && p4.EngineLeft? && p4.code == 0
            && Moved(g4, t, p4, Go()).0.book.record.reason == Completed
  {
    StopDuringConfigureIsLost(g, t);
    var (g2, p2) := RunUntilDecoding(RestOfConfigure(g, t).0, t);
    LateRaiseEndsTheRun(g2, t, p2, stopper);
  }

  lemma {:induction false} LateRaiseEndsTheRun(g: Shared, t: nat, p: Pc, stopper: nat)
    requires p.Decoding? && !g.flags.latch
    ensures var (g', p') := Moved(g, stopper, StopRaising, Go());
            var (g'', p'') := Moved(g', t, p, Go());
            && p'.Outside? && p''.EngineLeft? && p''.code == 0
            && Moved(g'', t, p'', Go()).0.book.record.reason == Completed
  {
    var (g', _) := Moved(g, stopper, StopRaising, Go());
    assert g' == g.(flags := g.flags.(exitFlag := true));
    assert Moved(g', t, p, Go()) == (g', EngineLeft(p.run, 0));
  }

  lemma {:induction false} RestOfConfigureWipes(g: Shared, t: nat)
    requires g.slot.lock && !g.slot.running
    ensures var (g', p') := RestOfConfigure(g, t);
            && p'.Outside? && g'.flags == Flags(false, false, 0) && g'.engine.current == g.engine.current
            && g'.slot == g.slot.(lock := false, configured := true)
  {
    var (g1, p1) := Moved(g, t, ConfigBegun, Go());
    assert p1 == ConfigExitCleared && g1 == g.(flags := g.flags.(exitFlag := false));
  }

  lemma {:induction false} RunDecodes(g: Shared, t: nat)
    requires !g.slot.lock && !g.slot.running && g.slot.configured && g.engine.current.Some? && g.flags == Flags(false, false, 0)
    ensures var (g', p') := RunUntilDecoding(g, t);
            && p'.Decoding? && g'.flags == Flags(false, false, 0)
            && g'.slot == g.slot.(running := true) && g'.engine == g.engine && g'.book.record.session == g.book.record.session
  {
    var (g1, p1) := Moved(g, t, Outside, CallRun);
    assert p1.EngineEntry? && g1.flags == g.flags;
    var (g2, p2) := Moved(g1, t, p1, Go());
    assert p2.EngineSetup? && g2.flags == g.flags;
    var (g3, p3) := Moved(g2, t, p2, Go());
    assert p3.HookFirst? && g3.flags == g.flags;
    var (g4, p4) := Moved(g3, t, p3, Go());
    assert p4.HookMark? && g4.flags == g.flags;
    var (g5, p5) := Moved(g4, t, p4, Go());
    assert p5.HookSecond? && g5.flags == g.flags;
  }

  /** One whole configure call: whether its arguments convert, and how its last move ends. */
  function ConfigureCall(g: Shared, t: nat, session: nat, argumentsConvert: bool, bootstrap: Action): (Shared, Pc) {
    var (g1, p1) := Moved(g, t, Outside, CallConfigure(session));
    var (g2, p2) := Moved(g1, t, p1, Go());
    var (g3, p3) := Moved(g2, t, p2, Go().(ok := argumentsConvert));
    if !argumentsConvert then (g3, p3)
    else
      var (g4, p4) := Moved(g3, t, p3, Go());
      Moved(g4, t, p4, bootstrap)
  }

  /** `configured` alone does not say whose options are installed. From a rested state whose
      installed options belong to the session on record, a configure call leaves runnable
      options of another session behind if and only if its arguments could not be converted,
      options were installed, and they were installed for another session. */
  lemma {:induction false} ForeignOptionsExactlyAfterFailedArguments(
    g: Shared, t: nat, session: nat, argumentsConvert: bool, bootstrap: Action)
    requires !g.slot.lock && !g.slot.running && g.engine.current.Some? && bootstrap.Continue?
    requires g.slot.configured ==> g.book.configuredFor == g.book.record.session
    ensures var (g', p') := ConfigureCall(g, t, session, argumentsConvert, bootstrap);
            && p'.Outside? && !g'.slot.lock && g'.book.record.session == session
            && (g'.slot.configured && g'.book.configuredFor != session
                <==> !argumentsConvert && g.slot.configured && g.book.configuredFor != session)
            && (g'.slot.configured ==> Moved(g', t, p', CallRun).1.EngineEntry?)
  {
    var (g1, p1) := Moved(g, t, Outside, CallConfigure(session));
    assert p1 == ConfigEntered(session);
    var (g2, p2) := Moved(g1, t, p1, Go());
    assert p2.ConfigBegun? && g2.book.record == Began(session);
    if argumentsConvert {
      var (g3, p3) := Moved(g2, t, p2, Go().(ok := true));
      var (g4, p4) := Moved(g3, t, p3, Go());
      assert p4 == ConfigBootstrapping(session);
    }
  }

  /** A run that ends by itself with `code`: decoded, collected, cleaned up. */
  function RunCall(g: Shared, t: nat, code: int): (Shared, Pc) {
    var (g1, p1) := RunUntilDecoding(g, t);
    var (g2, p2) := Moved(g1, t, p1, Go().(quit := true, code := code));
    var (g3, p3) := Moved(g2, t, p2, Go());
    Moved(g3, t, p3, Go())
  }

  ghost predicate Rested(g: Shared) {
    !g.slot.lock && !g.slot.running && g.engine.current.Some? && g.flags == Flags(false, false, 0)
  }

  lemma {:induction false} ConfigureInstalls(g: Shared, t: nat, session: nat)
    requires Rested(g)
    ensures var (g', p') := ConfigureCall(g, t, session, true, Go());
            && p'.Outside? && Rested(g') && g'.slot.configured
            && g'.book.record == Began(session) && g'.book.configuredFor == session
  {
    var (g1, p1) := Moved(g, t, Outside, CallConfigure(session));
    assert p1 == ConfigEntered(session);
    var (g2, p2) := Moved(g1, t, p1, Go());
    assert p2 == ConfigBegun && g2.book.record == Began(session);
    var (g3, p3) := Moved(g2, t, p2, Go());
    assert p3 == ConfigExitCleared && g3.book == g2.book;
    var (g4, p4) := Moved(g3, t, p3, Go());
    assert p4 == ConfigBootstrapping(session) && g4.book == g2.book && g4.flags == Flags(false, false, 0);
  }

  lemma {:induction false} RunCompletes(g: Shared, t: nat)
    requires Rested(g) && g.slot.configured
    ensures var (g', p') := RunCall(g, t, 0);
            && p'.Outside? && Rested(g') && !g'.slot.configured
            && g'.book.record.reason == Completed && g'.book.record.session == g.book.record.session
  {
    RunDecodes(g, t);
    var (g1, p1) := RunUntilDecoding(g, t);
    var (g2, p2) := Moved(g1, t, p1, Go().(quit := true, code := 0));
    assert p2.EngineLeft? && p2.code == 0 && g2 == g1;
    var (g3, p3) := Moved(g2, t, p2, Go());
    assert p3.RunCollected? && g3.book.record.reason == Completed && g3.slot == g1.slot && g3.engine == g1.engine;
  }

  /** An instance of a reason that does not survive: from any initial state one thread makes the
      engine, configures it, runs it to completion and, without configuring again, calls run. The
      call is rejected, and the completed session now reads as failed. */
  lemma {:induction false} ACompletedRunCanEndUpFailed(s: State, t: nat, session: nat)
    requires Initial(s) && t < |s.threads|
    ensures var (g1, _) := Moved(s.g, t, Outside, CallInit(false));
            var (g2, _) := ConfigureCall(g1, t, session, true, Go());
            var (g3, p3) := RunCall(g2, t, 0);
            var (g4, p4) := Moved(g3, t, p3, CallRun);
            && g3.book.record.reason == Completed && g3.book.record.session == session
            && p4.Outside? && g4.book.record.reason == Failed && g4.book.record.session == session
  {
    var (g1, _) := Moved(s.g, t, Outside, CallInit(false));
    ConfigureInstalls(g1, t, session);
    RunCompletes(ConfigureCall(g1, t, session, true, Go()).0, t);
  }

  /** An instance of foreign options: from any initial state one thread makes the engine,
      configures it for one session, then for another whose arguments cannot be converted. A call
      of run now runs the first session's options under the second session's record. */
  lemma {:induction false} FailedArgumentsLeaveForeignOptions(s: State, t: nat, first: nat, second: nat)
    requires Initial(s) && t < |s.threads| && first != second
    ensures var (g1, _) := Moved(s.g, t, Outside, CallInit(false));
            var (g2, _) := ConfigureCall(g1, t, first, true, Go());
            var (g3, p3) := ConfigureCall(g2, t, second, false, Go());
            var (_, p4) := Moved(g3, t, p3, CallRun);
            && p3.Outside? && g3.slot.configured && g3.book.configuredFor == first
            && p4.EngineEntry? && p4.run.session == second
  {
    var (g1, _) := Moved(s.g, t, Outside, CallInit(false));
    ConfigureInstalls(g1, t, first);
    var g2 := ConfigureCall(g1, t, first, true, Go()).0;
    ForeignOptionsExactlyAfterFailedArguments(g2, t, second, false, Go());
  }
}
