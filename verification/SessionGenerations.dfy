/** Sessions told apart by their generation: over every run of the queue, a command made for an
    earlier session is never reported as applied in a later one. */
module SessionGenerations {
  import opened Commands
  import opened Results
  import opened KeyCommands
  import opened QueueSpec
  import opened CommandRuns

  /** How many sessions a run has opened. */
  ghost function Openings<S>(env: Env<S>, world: S, steps: seq<Step>): nat
    requires env.layout.Valid()
  {
    if |steps| == 0 then 0
    else
      var prior, step := steps[..|steps| - 1], steps[|steps| - 1];
      Openings(env, world, prior)
      + (if step == Edge(true) && After(env, Start(world), prior).stage.Resting? then 1 else 0)
  }

  lemma {:induction false} StepAndGeneration<S>(env: Env<S>, h: Host<S>, step: Step)
    requires Sound(env, h)
    ensures Next(env, h, step).q.generation
            == if step == Edge(true) && h.stage.Resting? then NextSequence(h.q.generation) else h.q.generation
  {
  }

  /** The generation that the `n`-th opening gives a session: the numbers from 1 to 2^64 - 1, over
      and over. */
  ghost predicate IsGenerationOf(g: nat, n: nat) {
    if n == 0 then g == 0
    else 0 < g <= 0xFFFF_FFFF_FFFF_FFFF && exists q: nat :: n - 1 == q * 0xFFFF_FFFF_FFFF_FFFF + g - 1
  }

  lemma {:induction false} NextGeneration(g: nat, n: nat)
    requires IsGenerationOf(g, n)
    ensures IsGenerationOf(NextSequence(g), n + 1)
  {
    if n == 0 {
      assert n == 0 * 0xFFFF_FFFF_FFFF_FFFF + 1 - 1;
    } else {
      var q: nat :| n - 1 == q * 0xFFFF_FFFF_FFFF_FFFF + g - 1;
      if g == 0xFFFF_FFFF_FFFF_FFFF {
        assert n == (q + 1) * 0xFFFF_FFFF_FFFF_FFFF + 1 - 1;
      } else {
        assert n == q * 0xFFFF_FFFF_FFFF_FFFF + (g + 1) - 1;
      }
    }
  }

  /** In closed form, after `n` openings: 1 + (n - 1) mod (2^64 - 1), and zero before the first. */
  lemma {:induction false} GenerationInClosedForm(g: nat, n: nat)
    requires IsGenerationOf(g, n)
    ensures g == if n == 0 then 0 else 1 + (n - 1) % 0xFFFF_FFFF_FFFF_FFFF
  {
    if n > 0 {
      var q: nat :| n - 1 == q * 0xFFFF_FFFF_FFFF_FFFF + g - 1;
      DivisionIsUnique(n - 1, q, g - 1);
    }
  }

  /** Over every run: the generation is the one that belongs to the number of openings so far. */
  lemma {:induction false} GenerationCountsOpenings<S>(env: Env<S>, world: S, steps: seq<Step>)
    requires env.layout.Valid()
    ensures IsGenerationOf(After(env, Start(world), steps).q.generation, Openings(env, world, steps))
  {
    if |steps| > 0 {
      var prior := steps[..|steps| - 1];
      GenerationCountsOpenings(env, world, prior);
      StepAndGeneration(env, After(env, Start(world), prior), steps[|steps| - 1]);
      NextGeneration(After(env, Start(world), prior).q.generation, Openings(env, world, prior));
    }
  }

  lemma {:induction false} OpeningsGrow<S>(env: Env<S>, world: S, steps: seq<Step>, k: nat)
    requires env.layout.Valid() && k <= |steps|
    ensures Openings(env, world, steps[..k]) <= Openings(env, world, steps)
  {
    if k == |steps| {
      assert steps[..k] == steps;
    } else {
      OpeningsGrow(env, world, steps[..|steps| - 1], k);
      assert steps[..|steps| - 1][..k] == steps[..k];
    }
  }

  lemma {:induction false} GenerationsDiffer(m: nat, n: nat, g: nat, g': nat)
    requires 0 < m < n < m + 0xFFFF_FFFF_FFFF_FFFF
    requires IsGenerationOf(g, m) && IsGenerationOf(g', n)
    ensures g != g'
  {
    var q: nat :| m - 1 == q * 0xFFFF_FFFF_FFFF_FFFF + g - 1;
    var q': nat :| n - 1 == q' * 0xFFFF_FFFF_FFFF_FFFF + g' - 1;
  }

  /** A run has an open session now and had another one open after its first `k` steps. */
  ghost predicate LaterSession<S>(env: Env<S>, world: S, steps: seq<Step>, k: nat)
    requires env.layout.Valid() && k <= |steps|
  {
    && After(env, Start(world), steps[..k]).q.open && After(env, Start(world), steps).q.open
    && Openings(env, world, steps[..k]) < Openings(env, world, steps) < Openings(env, world, steps[..k]) + 0xFFFF_FFFF_FFFF_FFFF
  }

  /** Two sessions fewer than 2^64 - 1 openings apart report different generations. */
  lemma {:induction false} SessionsAreToldApart<S>(env: Env<S>, world: S, steps: seq<Step>, k: nat)
    requires env.layout.Valid() && k <= |steps| && LaterSession(env, world, steps, k)
    ensures ReportedGeneration(After(env, Start(world), steps[..k]).q) != ReportedGeneration(After(env, Start(world), steps).q)
  {
    GenerationCountsOpenings(env, world, steps[..k]);
    GenerationCountsOpenings(env, world, steps);
    GenerationsDiffer(Openings(env, world, steps[..k]), Openings(env, world, steps),
                      ReportedGeneration(After(env, Start(world), steps[..k]).q),
                      ReportedGeneration(After(env, Start(world), steps).q));
  }

  // --- Old commands ---------------------------------------------------------------------

  lemma {:induction false} DisposalsAreCancelled(log: seq<Report>, cmds: seq<Command>, generation: nat)
    ensures var after := AllLogged(log, DECRYPTION_ID, cmds, KEY_CANCELLED, generation);
            log <= after && forall i :: |log| <= i < |after| ==> after[i].status == KEY_CANCELLED
    decreases |cmds|
  {
    if |cmds| > 0 {
      DisposalsAreCancelled(Logged(log, DECRYPTION_ID, cmds[0], KEY_CANCELLED, generation), cmds[1..], generation);
    }
  }

  /** What a step reports as applied, it reports under the generation of the moment. */
  lemma {:induction false} AppliedIsReportedNow<S>(env: Env<S>, h: Host<S>, step: Step, i: nat)
    requires Sound(env, h)
    requires |h.keyLog| <= i < |Next(env, h, step).keyLog| && Next(env, h, step).keyLog[i].status == KEY_APPLIED
    ensures Next(env, h, step).keyLog[i].generation == ReportedGeneration(h.q)
  {
    if step.Edge? {
      DisposalsAreCancelled(h.keyLog, h.q.pending, ReportedGeneration(h.q));
    }
  }

  /** In every interleaving: while a later session is open, nothing that a step reports as applied
      carries an earlier session's generation. */
  lemma {:induction false} OldCommandsAreNeverApplied<S>(env: Env<S>, world: S, steps: seq<Step>, k: nat, step: Step, i: nat)
    requires env.layout.Valid() && k <= |steps| && LaterSession(env, world, steps, k)
    requires var h := After(env, Start(world), steps);
             |h.keyLog| <= i < |Next(env, h, step).keyLog|
    ensures var earlier, h := ReportedGeneration(After(env, Start(world), steps[..k]).q), After(env, Start(world), steps);
            var report := Next(env, h, step).keyLog[i];
            |report.c.data| >= DECRYPTION_SIZE && Field(report.c, 8, 8) == earlier ==> report.status != KEY_APPLIED
  {
    var h := After(env, Start(world), steps);
    SessionsAreToldApart(env, world, steps, k);
    EveryRunAppliesInSession(env, world, steps);
    NextApplies(env, h, step);
    if Next(env, h, step).keyLog[i].status == KEY_APPLIED {
      AppliedIsReportedNow(env, h, step, i);
    }
  }

  lemma {:induction false} OtherGenerationIsStale<S>(env: Env<S>, h: Host<S>, status: int, around: Surroundings)
    requires Sound(env, h) && h.stage.Taken? && h.stage.c.id == DECRYPTION_ID && h.stage.c.n == DECRYPTION_SIZE
    requires PayloadIsValid(env.layout, h.stage.c) && PayloadAccepted(Parsed(h.stage.c))
    requires Field(h.stage.c, 8, 8) != ReportedGeneration(h.q)
    ensures Next(env, h, Run(status, around)).stage == Judged(h.stage.c, KEY_STALE, KEY_STALE)
  {
    var p := Parsed(h.stage.c);
    assert p.sessionGeneration == Field(h.stage.c, 8, 8);
    assert ApplyStatus(h.stage.c, ReportedGeneration(h.q), around) == KEY_STALE;
  }

  /** And a well-formed one that the drain holds is judged stale, whatever its surroundings. */
  lemma {:induction false} OldCommandsAreStale<S>(
    env: Env<S>, world: S, steps: seq<Step>, k: nat, status: int, around: Surroundings)
    requires env.layout.Valid() && k <= |steps| && LaterSession(env, world, steps, k)
    requires var h := After(env, Start(world), steps);
             && h.stage.Taken? && h.stage.c.id == DECRYPTION_ID && h.stage.c.n == DECRYPTION_SIZE
             && PayloadIsValid(env.layout, h.stage.c) && PayloadAccepted(Parsed(h.stage.c))
             && Field(h.stage.c, 8, 8) == ReportedGeneration(After(env, Start(world), steps[..k]).q)
    ensures var h := After(env, Start(world), steps);
            Next(env, h, Run(status, around)).stage == Judged(h.stage.c, KEY_STALE, KEY_STALE)
  {
    SessionsAreToldApart(env, world, steps, k);
    OtherGenerationIsStale(env, After(env, Start(world), steps), status, around);
  }
}
