/** The drain method and the interleaved model agree: draining a queue is so many rounds of
    taking, running and publishing, and means running the accepted commands in order. */
module DrainRounds {
  import opened Commands
  import opened Results
  import opened KeyCommands
  import opened QueueSpec
  import opened CommandRuns
  import opened AppCommandQueue

  /** How the callees behind the handlers end, for a command met in a decoder state. */
  datatype Callees<!S> = Callees(status: (S, Command) -> int, around: (S, Command) -> Surroundings)

  /** The handler that a session with the given generation runs: its effect, and its status,
      which for a decryption command is the one decided check by check. */
  ghost predicate IsHandlerOf<S(!new)>(handler: (S, Command) -> (S, int), env: Env<S>, callees: Callees<S>, generation: nat) {
    forall s: S, c: Command {:trigger handler(s, c)} :: |c.data| >= DECRYPTION_SIZE ==>
      && handler(s, c).0 == env.apply(s, c)
      && handler(s, c).1 == if c.id == DECRYPTION_ID then ApplyStatus(c, generation, callees.around(s, c)) else callees.status(s, c)
  }

  ghost function Stepped<S>(env: Env<S>, h: Host<S>, step: Step): (r: Host<S>)
    requires Sound(env, h)
    ensures Sound(env, r)
  {
    NextKeepsSound(env, h, step);
    Next(env, h, step)
  }

  /** One round of the decoder thread with nobody else moving. */
  ghost function Round<S>(env: Env<S>, h: Host<S>, callees: Callees<S>): (r: Host<S>)
    requires Sound(env, h) && h.q.pending != []
    ensures Sound(env, r)
  {
    var c := h.q.pending[0];
    var ran := Stepped(env, Stepped(env, h, Take), Run(callees.status(h.world, c), callees.around(h.world, c)));
    Stepped(env, Stepped(env, ran, SendExport), SendKey)
  }

  lemma {:induction false} TakenAndRun<S(!new)>(
    env: Env<S>, h: Host<S>, callees: Callees<S>, handler: (S, Command) -> (S, int))
    requires Sound(env, h) && h.stage.Resting? && h.q.pending != []
    requires IsHandlerOf(handler, env, callees, ReportedGeneration(h.q))
    ensures var c := h.q.pending[0];
            var h' := Stepped(env, Stepped(env, h, Take), Run(callees.status(h.world, c), callees.around(h.world, c)));
            && h'.q == Popped(h.q)
            && (if PayloadIsValid(env.layout, c) then
                  && h'.world == handler(h.world, c).0
                  && h'.stage == Judged(c, handler(h.world, c).1, handler(h.world, c).1)
                else h'.world == h.world && h'.stage == Judged(c, APPLY_INVALID_PAYLOAD, KEY_INVALID))
  {
    assert handler(h.world, h.q.pending[0]).0 == env.apply(h.world, h.q.pending[0]);
  }

  lemma {:induction false} SentBoth<S>(env: Env<S>, h: Host<S>)
    requires Sound(env, h) && h.stage.Judged?
    ensures var h' := Stepped(env, Stepped(env, h, SendExport), SendKey);
            && h'.stage.Resting? && h'.world == h.world
            && h'.q == h.q.(retained := Retained(ExportReport(h.q.retained.exported, h.stage.c, h.stage.exportStatus),
                                                 KeyReport(h.q.retained.keys, h.stage.c, h.stage.keyStatus)))
  {
  }

  lemma {:induction false} RoundRunsOne<S(!new)>(
    env: Env<S>, h: Host<S>, callees: Callees<S>, handler: (S, Command) -> (S, int))
    requires Sound(env, h) && h.stage.Resting? && h.q.pending != []
    requires IsHandlerOf(handler, env, callees, ReportedGeneration(h.q))
    ensures var h', c := Round(env, h, callees), h.q.pending[0];
            && h'.stage.Resting? && h'.q == Popped(h.q).(retained := h'.q.retained)
            && c.n <= |c.data|
            && (h'.world, h'.q.retained) == RunOne(env.layout, h.world, handler, h.q.retained, c)
  {
    var c := h.q.pending[0];
    TakenAndRun(env, h, callees, handler);
    SentBoth(env, Stepped(env, Stepped(env, h, Take), Run(callees.status(h.world, c), callees.around(h.world, c))));
  }

  /** As many rounds as there are pending commands. */
  ghost function Rounds<S>(env: Env<S>, h: Host<S>, callees: Callees<S>, n: nat): (r: Host<S>)
    requires Sound(env, h)
    ensures Sound(env, r)
    decreases n
  {
    if n == 0 || h.q.pending == [] then h else Rounds(env, Round(env, h, callees), callees, n - 1)
  }

  lemma {:induction false} RunAllFromFront<S>(
    layout: Layout, world: S, handler: (S, Command) -> (S, int), r: Retained, cmds: seq<Command>, next: S, r': Retained)
    requires |cmds| > 0 && forall c :: c in cmds ==> c.n <= |c.data|
    requires (next, r') == RunOne(layout, world, handler, r, cmds[0])
    ensures RunAll(layout, world, handler, r, cmds) == RunAll(layout, next, handler, r', cmds[1..])
  {
  }

  lemma {:induction false} RoundsDrain<S(!new)>(
    env: Env<S>, h: Host<S>, callees: Callees<S>, handler: (S, Command) -> (S, int))
    requires Sound(env, h) && h.stage.Resting?
    requires IsHandlerOf(handler, env, callees, ReportedGeneration(h.q))
    requires forall c :: c in h.q.pending ==> c.n <= |c.data|
    ensures var h' := Rounds(env, h, callees, |h.q.pending|);
            && h'.stage.Resting? && h'.q == Queue([], h.q.open, h.q.generation, h'.q.retained)
            && (h'.world, h'.q.retained) == RunAll(env.layout, h.world, handler, h.q.retained, h.q.pending)
    decreases |h.q.pending|
  {
    if |h.q.pending| > 0 {
      RoundRunsOne(env, h, callees, handler);
      var h1 := Round(env, h, callees);
      RoundsDrain(env, h1, callees, handler);
      RunAllFromFront(env.layout, h.world, handler, h.q.retained, h.q.pending, h1.world, h1.q.retained);
    }
  }

  /** A drain leaves the state of running the commands it accepts, oldest first. */
  lemma {:induction false} DrainRunsInOrder<S(!new)>(
    env: Env<S>, world: S, handler: (S, Command) -> (S, int), r: Retained, cmds: seq<Command>)
    requires forall c :: c in cmds ==> c.n <= |c.data|
    requires forall s: S, c: Command {:trigger handler(s, c)} :: c in cmds ==> handler(s, c).0 == env.apply(s, c)
    ensures RunAll(env.layout, world, handler, r, cmds).0 == Final(env, world, cmds)
    decreases |cmds|
  {
    if |cmds| > 0 {
      var (next, r') := RunOne(env.layout, world, handler, r, cmds[0]);
      DrainRunsInOrder(env, next, handler, r', cmds[1..]);
      assert next == Executed(env, world, cmds[0]);
      FinalInParts(env, world, [cmds[0]], cmds[1..]);
      FinalAppend(env, world, [], cmds[0]);
      assert [] + [cmds[0]] == [cmds[0]] && [cmds[0]] + cmds[1..] == cmds;
    }
  }

  /** Draining a queue is one round of the interleaved model for each pending command. Both leave
      the queue empty and agree on the decoder state and on both published results; and the state
      is that of running the pending commands the drain accepts, oldest first. */
  lemma {:induction false} DrainIsRounds<S(!new)>(
    env: Env<S>, h: Host<S>, callees: Callees<S>, handler: (S, Command) -> (S, int))
    requires Sound(env, h) && h.stage.Resting?
    requires IsHandlerOf(handler, env, callees, ReportedGeneration(h.q))
    ensures forall c :: c in h.q.pending ==> c.n <= |c.data|
    ensures var h' := Rounds(env, h, callees, |h.q.pending|);
            && h'.stage.Resting? && h'.q == Queue([], h.q.open, h.q.generation, h'.q.retained)
            && (h'.world, h'.q.retained) == RunAll(env.layout, h.world, handler, h.q.retained, h.q.pending)
            && h'.world == Final(env, h.world, h.q.pending)
  {
    RoundsDrain(env, h, callees, handler);
    DrainRunsInOrder(env, h.world, handler, h.q.retained, h.q.pending);
  }

  // --- What the last result says --------------------------------------------------------

  lemma {:induction false} RunAllInParts<S>(
    layout: Layout, world: S, handler: (S, Command) -> (S, int), r: Retained, cmds: seq<Command>, c: Command)
    requires (forall d :: d in cmds ==> d.n <= |d.data|) && c.n <= |c.data|
    ensures forall d :: d in cmds + [c] ==> d.n <= |d.data|
    ensures var (w, r') := RunAll(layout, world, handler, r, cmds);
            RunAll(layout, world, handler, r, cmds + [c]) == RunOne(layout, w, handler, r', c)
    decreases |cmds|
  {
    if |cmds| > 0 {
      var (w, r') := RunOne(layout, world, handler, r, cmds[0]);
      RunAllInParts(layout, w, handler, r', cmds[1..], c);
      assert (cmds + [c])[1..] == cmds[1..] + [c];
    } else {
      assert cmds + [c] == [c];
    }
  }

  /** After a drain the retained result answers the newest command that owes one: an export
      succeeded exactly if its payload was accepted and its handler completed; a decryption has
      its handler's status, or invalid when it was not run. */
  lemma {:induction false} NewestResultIsRetained<S>(
    layout: Layout, world: S, handler: (S, Command) -> (S, int), r: Retained, cmds: seq<Command>, c: Command)
    requires (forall d :: d in cmds ==> d.n <= |d.data|) && c.n <= |c.data|
    ensures forall d :: d in cmds + [c] ==> d.n <= |d.data|
    ensures var before, after := RunAll(layout, world, handler, r, cmds), RunAll(layout, world, handler, r, cmds + [c]).1;
            var accepted, status := PayloadIsValid(layout, c), handler(before.0, c).1;
            && (c.id == EXPORT_ID ==> (after.exported.success <==> accepted && status == APPLY_COMPLETED))
            && (c.id != EXPORT_ID ==> after.exported == before.1.exported)
            && (c.id == DECRYPTION_ID ==> after.keys.status == if accepted && status <= KEY_APPLIED then status else KEY_INVALID)
            && (c.id != DECRYPTION_ID ==> after.keys == before.1.keys)
  {
    RunAllInParts(layout, world, handler, r, cmds, c);
  }
}
