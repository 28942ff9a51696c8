/** The 0/1/2 handshake that initializes a mutex on first use, for any number of threads
    and every interleaving. Both copies of the pattern are covered: one looks at the
    flag before it tries the exchange, the other goes straight to the exchange. */
module OneTimeInit {

  datatype Pc =
    | Arriving        // about to look at the flag (first copy only)
    | Trying          // about to compare-and-exchange 0 for 1
    | Initializing    // won the exchange; about to initialize the mutex
    | Announcing      // initialized; about to store 2
    | Waiting         // lost the exchange; spinning until the flag reads 2
    | Ready           // about to lock
    | Inside          // holds the mutex

  datatype State = State(flag: int, initializations: nat, complete: bool, locked: bool, threads: seq<Pc>)

  ghost predicate Initial(s: State, looksFirst: bool) {
    && s.flag == 0 && s.initializations == 0 && !s.complete && !s.locked
    && forall t :: 0 <= t < |s.threads| ==> s.threads[t] == Entry(looksFirst)
  }

  function Entry(looksFirst: bool): Pc {
    if looksFirst then Arriving else Trying
  }

  /** Thread `t` makes its next atomic move; a thread that cannot move leaves the state. */
  function Step(s: State, t: nat, looksFirst: bool): State
    requires t < |s.threads|
  {
    match s.threads[t]
    case Arriving => s.(threads := s.threads[t := if s.flag == 2 then Ready else Trying])
    case Trying =>
      if s.flag == 0 then s.(flag := 1, threads := s.threads[t := Initializing])
      else s.(threads := s.threads[t := Waiting])
    case Initializing =>
      s.(initializations := s.initializations + 1, complete := true, threads := s.threads[t := Announcing])
    case Announcing => s.(flag := 2, threads := s.threads[t := Ready])
    case Waiting => if s.flag == 2 then s.(threads := s.threads[t := Ready]) else s
    case Ready => if s.locked then s else s.(locked := true, threads := s.threads[t := Inside])
    case Inside => s.(locked := false, threads := s.threads[t := Entry(looksFirst)])
  }

  function Run(s: State, schedule: seq<nat>, looksFirst: bool): (r: State)
    requires forall i :: 0 <= i < |schedule| ==> schedule[i] < |s.threads|
    ensures |r.threads| == |s.threads|
  {
    if |schedule| == 0 then s
    else Step(Run(s, schedule[..|schedule| - 1], looksFirst), schedule[|schedule| - 1], looksFirst)
  }

  predicate Elected(p: Pc) {
    p.Initializing? || p.Announcing?
  }

  /** At most one thread is initializing, and one exists exactly while the flag is 1. */
  ghost predicate OneElected(flag: int, threads: seq<Pc>) {
    && (forall t, u :: 0 <= t < u < |threads| ==> !(Elected(threads[t]) && Elected(threads[u])))
    && ((exists t :: 0 <= t < |threads| && Elected(threads[t])) <==> flag == 1)
  }

  /** Where a thread stands tells how far the initialization is: waiting means it has begun,
      past the handshake means it is over. */
  ghost predicate Telling(s: State, p: Pc) {
    match p
    case Initializing => s.initializations == 0 && !s.complete
    case Announcing => s.initializations == 1 && s.complete
    case Waiting => s.flag != 0
    case Ready => s.flag == 2
    case Inside => s.flag == 2
    case _ => true
  }

  ghost predicate Invariant(s: State) {
    && 0 <= s.flag <= 2
    && OneElected(s.flag, s.threads)
    && (forall t :: 0 <= t < |s.threads| ==> Telling(s, s.threads[t]))
    && (s.flag == 0 ==> s.initializations == 0 && !s.complete)
    && (s.flag == 2 ==> s.initializations == 1 && s.complete)
  }

  /** The mutex has one holder exactly while it is locked. */
  ghost predicate Exclusive(s: State) {
    && (forall t, u :: 0 <= t < u < |s.threads| ==> !(s.threads[t].Inside? && s.threads[u].Inside?))
    && ((exists t :: 0 <= t < |s.threads| && s.threads[t].Inside?) <==> s.locked)
  }

  /** A move elects its thread when the flag is 0, or ends its election, or changes neither. */
  lemma {:induction false} StepElects(s: State, t: nat, looksFirst: bool)
    requires t < |s.threads|
    ensures var s' := Step(s, t, looksFirst);
            var p, p' := s.threads[t], s'.threads[t];
            && s'.threads == s.threads[t := p']
            && (if Elected(p) == Elected(p') then s'.flag == s.flag
                else if Elected(p') then s.flag == 0 && s'.flag == 1
                else s'.flag == 2)
  {
  }

  lemma {:induction false} ElectionMoves(threads: seq<Pc>, t: nat, p: Pc, flag: int, flag': int)
    requires t < |threads| && OneElected(flag, threads)
    requires if Elected(threads[t]) == Elected(p) then flag' == flag
             else if Elected(p) then flag == 0 && flag' == 1
             else flag' == 2
    ensures OneElected(flag', threads[t := p])
  {
    var threads' := threads[t := p];
    assert forall u :: 0 <= u < |threads| && u != t ==> threads'[u] == threads[u];
    assert Elected(threads[t]) ==> flag == 1;
    if Elected(p) {
      assert Elected(threads'[t]);
    } else if flag' == 1 {
      var u :| 0 <= u < |threads| && Elected(threads[u]);
      assert Elected(threads'[u]);
    }
  }

  lemma {:induction false} StepKeepsElected(s: State, t: nat, looksFirst: bool)
    requires t < |s.threads| && OneElected(s.flag, s.threads)
    ensures OneElected(Step(s, t, looksFirst).flag, Step(s, t, looksFirst).threads)
  {
    var s' := Step(s, t, looksFirst);
    StepElects(s, t, looksFirst);
    ElectionMoves(s.threads, t, s'.threads[t], s.flag, s'.flag);
  }

  lemma {:induction false} StepKeepsInvariant(s: State, t: nat, looksFirst: bool)
    requires t < |s.threads| && Invariant(s)
    ensures Invariant(Step(s, t, looksFirst))
  {
    var s' := Step(s, t, looksFirst);
    StepKeepsElected(s, t, looksFirst);
    assert Telling(s, s.threads[t]);
    assert Elected(s.threads[t]) ==> s.flag == 1;
    forall u | 0 <= u < |s.threads|
      ensures Telling(s', s'.threads[u])
    {
      assert Telling(s, s.threads[u]);
      assert Elected(s.threads[u]) && Elected(s.threads[t]) ==> u == t;
    }
  }

  lemma {:induction false} StepKeepsExclusive(s: State, t: nat, looksFirst: bool)
    requires t < |s.threads| && Exclusive(s)
    ensures Exclusive(Step(s, t, looksFirst))
  {
    var s' := Step(s, t, looksFirst);
    assert forall u :: 0 <= u < |s.threads| && u != t ==> s'.threads[u] == s.threads[u];
    match s.threads[t]
    case Ready => if !s.locked { assert s'.threads[t].Inside?; }
    case Inside => assert s.threads[t].Inside?;
    case _ => assert !s'.threads[t].Inside? && !s.threads[t].Inside?;
  }

  /** In every interleaving the mutex is initialized at most once, exactly once by the time
      any thread is past the handshake, and a thread that locks it or holds it finds the
      initialization finished; the holder is unique. */
  lemma {:induction false} InitializedOnceBeforeUse(s: State, schedule: seq<nat>, looksFirst: bool)
    requires Initial(s, looksFirst)
    requires forall i :: 0 <= i < |schedule| ==> schedule[i] < |s.threads|
    ensures var r := Run(s, schedule, looksFirst);
            && Invariant(r) && Exclusive(r)
            && r.initializations <= 1
            && (forall t :: 0 <= t < |r.threads| && (r.threads[t].Ready? || r.threads[t].Inside?) ==>
                  r.complete && r.initializations == 1)
  {
    if |schedule| > 0 {
      var prior := schedule[..|schedule| - 1];
      InitializedOnceBeforeUse(s, prior, looksFirst);
      StepKeepsInvariant(Run(s, prior, looksFirst), schedule[|schedule| - 1], looksFirst);
      StepKeepsExclusive(Run(s, prior, looksFirst), schedule[|schedule| - 1], looksFirst);
    }
  }

  /** A waiting thread is never stranded: while the flag is not yet 2, some thread is the
      elected one, and two moves of it release every waiter. */
  lemma {:induction false} WaitersAreReleased(s: State, waiter: nat, looksFirst: bool)
    requires Invariant(s) && waiter < |s.threads| && s.threads[waiter].Waiting? && s.flag != 2
    ensures exists t :: 0 <= t < |s.threads| && Elected(s.threads[t])
                        && Step(Step(s, t, looksFirst), t, looksFirst).initializations == 1
                        && (Step(s, t, looksFirst).flag == 2 || Step(Step(s, t, looksFirst), t, looksFirst).flag == 2)
  {
    assert Telling(s, s.threads[waiter]);
    var t :| 0 <= t < |s.threads| && Elected(s.threads[t]);
    assert Telling(s, s.threads[t]);
    var once := Step(s, t, looksFirst);
    var twice := Step(once, t, looksFirst);
    if s.threads[t].Initializing? {
      assert once.threads[t] == Announcing && twice.flag == 2 && twice.initializations == 1;
    } else {
      assert once.flag == 2 && once.threads[t] == Ready && twice.initializations == 1;
    }
  }

  /** Once the initialization is announced nobody is kept out: whenever the mutex is free, a thread
      that is not inside gets in with at most three moves of its own. */
  lemma {:induction false} EveryThreadGetsIn(s: State, t: nat, looksFirst: bool)
    requires Invariant(s) && t < |s.threads| && s.flag == 2 && !s.locked && !s.threads[t].Inside?
    ensures var s1 := Step(s, t, looksFirst);
            var s2 := Step(s1, t, looksFirst);
            var s3 := Step(s2, t, looksFirst);
            || (s1.threads[t].Inside? && s1.locked)
            || (s2.threads[t].Inside? && s2.locked)
            || (s3.threads[t].Inside? && s3.locked)
  {
    assert !Elected(s.threads[t]);
  }
}
