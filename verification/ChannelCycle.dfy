/** The manual channel cycle over the scan list: a circular search from a cursor, a tune
    request for the row found, and the cursor's move past it. */
module ChannelCycle {
  import opened ScanState

  /** What the search looks at. */
  datatype Rows = Rows(list: seq<int>, avoid: seq<bool>)

  predicate Avoided(v: Rows, i: nat) {
    i < |v.avoid| && v.avoid[i]
  }

  /** A row worth tuning: used, not avoided, and not a repetition of the row before it. */
  predicate Eligible(v: Rows, i: nat)
    requires i < |v.list|
  {
    v.list[i] != 0 && !Avoided(v, i) && (i == 0 || v.list[i - 1] != v.list[i])
  }

  /** The first eligible row at or after `x`, or the length of the list. */
  function FirstFrom(v: Rows, x: nat): (r: nat)
    requires x <= |v.list|
    ensures x <= r <= |v.list|
    ensures r < |v.list| ==> Eligible(v, r)
    ensures forall i :: x <= i < r ==> !Eligible(v, i)
    decreases |v.list| - x
  {
    if x == |v.list| || Eligible(v, x) then x else FirstFrom(v, x + 1)
  }

  /** Where a search starts for a cursor. */
  function Start(roll: int, count: nat): (s: nat)
    requires count > 0
    ensures s < count
  {
    if roll < 0 || roll >= count then 0 else roll
  }

  /** The row the circular search finds from `start`; the length of the list if there is none. */
  function Target(v: Rows, start: nat): (r: nat)
    requires start < |v.list|
    ensures r <= |v.list| && (r < |v.list| ==> Eligible(v, r))
    ensures r == |v.list| ==> forall i :: 0 <= i < |v.list| ==> !Eligible(v, i)
  {
    if FirstFrom(v, start) < |v.list| then FirstFrom(v, start) else FirstFrom(v, 0)
  }

  /** The cursor after one cycle on a list of `n` rows. */
  function CursorAfter(v: Rows, roll: int, accepted: bool): int {
    var n := |v.list|;
    if n == 0 then roll
    else
      var target := Target(v, Start(roll, n));
      if target == n then (if Start(roll, n) + 1 >= n then 0 else Start(roll, n) + 1)
      else if accepted then target + 1
      else roll
  }

  /** The rows tuned (at most one) by one cycle. */
  function TunedBy(v: Rows, roll: int, accepted: bool): seq<nat> {
    if |v.list| == 0 || !accepted || Target(v, Start(roll, |v.list|)) == |v.list| then []
    else [Target(v, Start(roll, |v.list|))]
  }

  predicate RefusedBy(v: Rows, roll: int, accepted: bool) {
    |v.list| > 0 && Target(v, Start(roll, |v.list|)) < |v.list| && !accepted
  }

  /** What a cycle reports: completed, or a tune that was refused. */
  datatype Outcome = Completed | Failed

  /** The search loop. */
  method Search(state: State, start: nat) returns (freq: int, row: nat)
    requires state.Picture().Valid() && start < state.cursor.count
    ensures var v := Rows(state.Picture().List(), Content(state.stores.avoid));
            var target := Target(v, start);
            if target == state.cursor.count then freq == 0 else row == target && freq == v.list[target] && freq != 0
  {
    var count := state.cursor.count;
    ghost var v := Rows(state.Picture().List(), Content(state.stores.avoid));
    var next, examined := start, 0;
    freq := 0;
    while examined < count
      invariant 0 <= examined <= count && next < count && freq == 0
      invariant next == if start + examined < count then start + examined else start + examined - count
      invariant forall i :: start <= i < count && i < start + examined ==> !Eligible(v, i)
      invariant forall i :: 0 <= i < count && i < start + examined - count ==> !Eligible(v, i)
    {
      freq := state.Slot(next);
      assert v.list[next] == freq && (next > 0 ==> v.list[next - 1] == state.Slot(next - 1));
      if freq != 0 && !state.AvoidGet(next) && (next == 0 || state.Slot(next - 1) != freq) {
        assert Eligible(v, next);
        break;
      }
      assert !Eligible(v, next);
      next := next + 1;
      if next >= count {
        next := 0;
      }
      freq := 0;
      examined := examined + 1;
    }
    row := next;
  }

  /** One cycle; `accepts` is the tuner's answer should it be asked. Only the cursor moves:
      past the row tuned, to the next row when there is nothing to tune, not at all when the
      tuner refuses. */
  method Cycle(state: State, accepts: bool) returns (outcome: Outcome, ghost tuned: seq<nat>)
    requires state.Picture().Valid()
    modifies state`cursor
    ensures var v := old(Rows(state.Picture().List(), Content(state.stores.avoid)));
            && state.cursor == old(state.cursor).(roll := CursorAfter(v, old(state.cursor.roll), accepts))
            && tuned == TunedBy(v, old(state.cursor.roll), accepts)
            && (outcome.Failed? <==> RefusedBy(v, old(state.cursor.roll), accepts))
  {
    ghost var v := Rows(state.Picture().List(), Content(state.stores.avoid));
    var count, start := state.cursor.count, state.cursor.roll;
    if count <= 0 {
      return Completed, [];
    }
    if start < 0 || start >= count {
      start := 0;
    }
    var freq, next := Search(state, start);
    outcome, tuned := Completed, [];
    if freq == 0 {
      state.cursor := state.cursor.(roll := start + 1);
      if state.cursor.roll >= count {
        state.cursor := state.cursor.(roll := 0);
      }
    } else if !accepts {
      outcome := Failed;
    } else {
      state.cursor := state.cursor.(roll := next + 1);
      tuned := [next];
    }
  }

  // --- Fairness -------------------------------------------------------------------------

  /** The eligible rows below `x`, ascending. */
  function EligibleBelow(v: Rows, x: nat): (rows: seq<nat>)
    requires x <= |v.list|
    ensures forall i :: 0 <= i < |rows| ==> rows[i] < x && Eligible(v, rows[i])
  {
    if x == 0 then [] else EligibleBelow(v, x - 1) + (if Eligible(v, x - 1) then [x - 1] else [])
  }

  function AllEligible(v: Rows): seq<nat> {
    EligibleBelow(v, |v.list|)
  }

  lemma {:induction false} EligibleExtends(v: Rows, x: nat, y: nat)
    requires x <= y <= |v.list|
    ensures EligibleBelow(v, x) <= EligibleBelow(v, y)
    ensures (forall i :: x <= i < y ==> !Eligible(v, i)) ==> EligibleBelow(v, x) == EligibleBelow(v, y)
    decreases y - x
  {
    if x < y {
      EligibleExtends(v, x, y - 1);
    }
  }

  /** An eligible row stands in the ascending list behind the eligible rows below it. */
  lemma {:induction false} RankOfRow(v: Rows, row: nat)
    requires row < |v.list| && Eligible(v, row)
    ensures |EligibleBelow(v, row)| < |AllEligible(v)| && AllEligible(v)[|EligibleBelow(v, row)|] == row
    ensures |EligibleBelow(v, row + 1)| == |EligibleBelow(v, row)| + 1
  {
    EligibleExtends(v, row + 1, |v.list|);
    assert EligibleBelow(v, row + 1)[|EligibleBelow(v, row)|] == row;
  }

  /** The next place in a circle of `k`, and the place `j` steps on from `r`. */
  function Next(r: nat, k: nat): (s: nat)
    requires r < k
    ensures s < k
  {
    if r + 1 == k then 0 else r + 1
  }

  function Around(r: nat, j: nat, k: nat): (s: nat)
    requires r < k
    ensures s < k
  {
    if j == 0 then r else Next(Around(r, j - 1, k), k)
  }

  lemma {:induction false} OneTurn(r: nat, j: nat, k: nat)
    requires r < k && j <= k
    ensures Around(r, j, k) == if r + j < k then r + j else r + j - k
  {
    if j > 0 {
      OneTurn(r, j - 1, k);
    }
  }

  /** The place, in the circle of eligible rows, that a cursor points at. */
  function Rank(v: Rows, roll: int): (r: nat)
    requires |v.list| > 0 && |AllEligible(v)| > 0
    ensures r < |AllEligible(v)|
  {
    EligibleExtends(v, Start(roll, |v.list|), |v.list|);
    var below := |EligibleBelow(v, Start(roll, |v.list|))|;
    if below == |AllEligible(v)| then 0 else below
  }

  lemma {:induction false} FirstFromIsAtRank(v: Rows, x: nat)
    requires x <= |v.list|
    ensures var below := |EligibleBelow(v, x)|;
            if FirstFrom(v, x) < |v.list| then below < |AllEligible(v)| && AllEligible(v)[below] == FirstFrom(v, x)
            else below == |AllEligible(v)|
  {
    var first := FirstFrom(v, x);
    EligibleExtends(v, x, first);
    if first < |v.list| {
      RankOfRow(v, first);
    }
  }

  lemma {:induction false} TargetIsAtRank(v: Rows, roll: int)
    requires |v.list| > 0 && |AllEligible(v)| > 0
    ensures Target(v, Start(roll, |v.list|)) == AllEligible(v)[Rank(v, roll)]
  {
    FirstFromIsAtRank(v, Start(roll, |v.list|));
    FirstFromIsAtRank(v, 0);
  }

  /** An accepted cycle moves the cursor one place on in the circle. */
  lemma {:induction false} AcceptedCycleAdvancesRank(v: Rows, roll: int)
    requires |v.list| > 0 && |AllEligible(v)| > 0
    ensures Rank(v, CursorAfter(v, roll, true)) == Next(Rank(v, roll), |AllEligible(v)|)
  {
    var n, k := |v.list|, |AllEligible(v)|;
    var row := Target(v, Start(roll, n));
    TargetIsAtRank(v, roll);
    RankOfRow(v, row);
    AscendingList(v, n, Rank(v, roll), |EligibleBelow(v, row)|);
    assert Rank(v, roll) == |EligibleBelow(v, row)|;
  }

  lemma {:induction false} AscendingList(v: Rows, x: nat, i: nat, j: nat)
    requires x <= |v.list| && i < |EligibleBelow(v, x)| && j < |EligibleBelow(v, x)|
    ensures i < j ==> EligibleBelow(v, x)[i] < EligibleBelow(v, x)[j]
    ensures EligibleBelow(v, x)[i] == EligibleBelow(v, x)[j] ==> i == j
  {
    var shorter := |EligibleBelow(v, x - 1)|;
    if i < shorter && j < shorter {
      AscendingList(v, x - 1, i, j);
    }
  }

  /** What one cycle does, seen on the circle. */
  lemma {:induction false} OneCycle(v: Rows, roll: int, accepted: bool)
    requires |v.list| > 0 && |AllEligible(v)| > 0
    ensures accepted ==>
              && TunedBy(v, roll, accepted) == [AllEligible(v)[Rank(v, roll)]]
              && Rank(v, CursorAfter(v, roll, accepted)) == Next(Rank(v, roll), |AllEligible(v)|)
    ensures !accepted ==> TunedBy(v, roll, accepted) == [] && CursorAfter(v, roll, accepted) == roll
  {
    TargetIsAtRank(v, roll);
    if accepted {
      AcceptedCycleAdvancesRank(v, roll);
    }
  }

  /** The cursor and the rows tuned after a run of cycles, each accepted or refused. */
  function CursorAfterAll(v: Rows, roll: int, answers: seq<bool>): int {
    if |answers| == 0 then roll
    else CursorAfter(v, CursorAfterAll(v, roll, answers[..|answers| - 1]), answers[|answers| - 1])
  }

  function TunedByAll(v: Rows, roll: int, answers: seq<bool>): seq<nat> {
    if |answers| == 0 then []
    else
      var prior := answers[..|answers| - 1];
      TunedByAll(v, roll, prior) + TunedBy(v, CursorAfterAll(v, roll, prior), answers[|answers| - 1])
  }

  function Accepted(answers: seq<bool>): nat {
    if |answers| == 0 then 0 else Accepted(answers[..|answers| - 1]) + (if answers[|answers| - 1] then 1 else 0)
  }

  /** Round robin, refusals included: whatever the tuner answers, the accepted tunes walk the
      circle of eligible rows in order, without skipping or repeating a row. */
  lemma {:induction false} AcceptedTunesWalkTheCircle(v: Rows, roll: int, answers: seq<bool>)
    requires |v.list| > 0 && |AllEligible(v)| > 0
    ensures var tuned, circle := TunedByAll(v, roll, answers), AllEligible(v);
            && |tuned| == Accepted(answers)
            && (forall j :: 0 <= j < |tuned| ==> tuned[j] == circle[Around(Rank(v, roll), j, |circle|)])
            && Rank(v, CursorAfterAll(v, roll, answers)) == Around(Rank(v, roll), |tuned|, |circle|)
  {
    if |answers| > 0 {
      var prior := answers[..|answers| - 1];
      AcceptedTunesWalkTheCircle(v, roll, prior);
      OneCycle(v, CursorAfterAll(v, roll, prior), answers[|answers| - 1]);
      if answers[|answers| - 1] {
        WalkGoesOn(TunedByAll(v, roll, prior), AllEligible(v), Rank(v, roll));
      }
    }
  }

  lemma {:induction false} WalkGoesOn(tuned: seq<nat>, circle: seq<nat>, r: nat)
    requires r < |circle|
    requires forall j :: 0 <= j < |tuned| ==> tuned[j] == circle[Around(r, j, |circle|)]
    ensures var after := tuned + [circle[Around(r, |tuned|, |circle|)]];
            && (forall j :: 0 <= j < |after| ==> after[j] == circle[Around(r, j, |circle|)])
            && Around(r, |after|, |circle|) == Next(Around(r, |tuned|, |circle|), |circle|)
  {
  }

  lemma {:induction false} AllAccepted(answers: seq<bool>)
    requires forall i :: 0 <= i < |answers| ==> answers[i]
    ensures Accepted(answers) == |answers|
  {
    if |answers| > 0 {
      AllAccepted(answers[..|answers| - 1]);
    }
  }

  /** `tuned` is one turn round `circle`, starting at place `r`. */
  ghost predicate IsTurn(tuned: seq<nat>, circle: seq<nat>, r: nat) {
    && r < |circle| == |tuned|
    && forall j :: 0 <= j < |tuned| ==> tuned[j] == if r + j < |circle| then circle[r + j] else circle[r + j - |circle|]
  }

  predicate OnlyAt(tuned: seq<nat>, row: nat, j: nat) {
    j < |tuned| && tuned[j] == row && forall i :: 0 <= i < |tuned| && i != j ==> tuned[i] != row
  }

  lemma {:induction false} TurnVisitsOnce(tuned: seq<nat>, circle: seq<nat>, r: nat, place: nat)
    requires IsTurn(tuned, circle, r) && place < |circle|
    requires forall i, j :: 0 <= i < j < |circle| ==> circle[i] < circle[j]
    ensures exists j :: OnlyAt(tuned, circle[place], j)
  {
    assert OnlyAt(tuned, circle[place], if place >= r then place - r else place + |circle| - r);
  }

  lemma {:induction false} WalkOfOneTurn(tuned: seq<nat>, circle: seq<nat>, r: nat)
    requires r < |circle| == |tuned|
    requires forall j :: 0 <= j < |tuned| ==> tuned[j] == circle[Around(r, j, |circle|)]
    ensures IsTurn(tuned, circle, r)
  {
    forall j | 0 <= j < |tuned|
      ensures tuned[j] == if r + j < |circle| then circle[r + j] else circle[r + j - |circle|]
    {
      OneTurn(r, j, |circle|);
    }
  }

  lemma {:induction false} AcceptedCyclesMakeATurn(v: Rows, roll: int, answers: seq<bool>)
    requires |v.list| > 0 && 0 < |answers| == |AllEligible(v)| && (forall i :: 0 <= i < |answers| ==> answers[i])
    ensures IsTurn(TunedByAll(v, roll, answers), AllEligible(v), Rank(v, roll))
  {
    AcceptedTunesWalkTheCircle(v, roll, answers);
    AllAccepted(answers);
    WalkOfOneTurn(TunedByAll(v, roll, answers), AllEligible(v), Rank(v, roll));
  }

  /** Any `k` consecutive accepted cycles over an unchanged list with `k` eligible rows tune
      each of them, and each exactly once. */
  lemma {:induction false} EachEligibleRowOnce(v: Rows, roll: int, answers: seq<bool>, row: nat)
    requires |v.list| > 0 && |answers| == |AllEligible(v)| && (forall i :: 0 <= i < |answers| ==> answers[i])
    requires row < |v.list| && Eligible(v, row)
    ensures |TunedByAll(v, roll, answers)| == |answers| && exists j :: OnlyAt(TunedByAll(v, roll, answers), row, j)
  {
    RankOfRow(v, row);
    AcceptedCyclesMakeATurn(v, roll, answers);
    forall i, j | 0 <= i < j < |AllEligible(v)|
      ensures AllEligible(v)[i] < AllEligible(v)[j]
    {
      AscendingList(v, |v.list|, i, j);
    }
    TurnVisitsOnce(TunedByAll(v, roll, answers), AllEligible(v), Rank(v, roll), |EligibleBelow(v, row)|);
  }

  /** From any cursor, one cycle that moves it leaves it within the list; a refusal leaves it
      alone; and with nothing eligible it steps to the next row round the list. */
  lemma {:induction false} CursorStaysInRange(v: Rows, roll: int, accepted: bool)
    requires |v.list| > 0
    ensures var after := CursorAfter(v, roll, accepted);
            && (0 <= roll <= |v.list| ==> 0 <= after <= |v.list|)
            && (|AllEligible(v)| > 0 && !accepted ==> after == roll)
            && (|AllEligible(v)| > 0 && accepted ==> 0 < after <= |v.list|)
            && (|AllEligible(v)| == 0 ==> after == Next(Start(roll, |v.list|), |v.list|))
  {
    var n, start := |v.list|, Start(roll, |v.list|);
    if |AllEligible(v)| > 0 {
      TargetIsAtRank(v, roll);
    } else {
      if Target(v, start) < n {
        RankOfRow(v, Target(v, start));
      }
    }
  }

  // --- In terms of rows and answers -----------------------------------------------------

  /** A row worth tuning, said directly. */
  predicate WorthTuning(list: seq<int>, avoid: seq<bool>, i: nat) {
    && i < |list| && list[i] != 0
    && (i < |avoid| ==> !avoid[i])
    && (i > 0 ==> list[i - 1] != list[i])
  }

  /** The row found is the first one worth tuning at or after the cursor, or else the first of the
      list; a cursor outside the list starts over. */
  ghost predicate IsNextRow(list: seq<int>, avoid: seq<bool>, roll: int, row: nat) {
    && WorthTuning(list, avoid, row)
    && if exists i: nat :: 0 <= roll <= i && WorthTuning(list, avoid, i)
       then roll <= row && forall i: nat :: roll <= i < row ==> !WorthTuning(list, avoid, i)
       else forall i: nat :: i < row ==> !WorthTuning(list, avoid, i)
  }

  lemma {:induction false} EligibleIsWorthTuning(v: Rows, i: nat)
    ensures WorthTuning(v.list, v.avoid, i) <==> i < |v.list| && Eligible(v, i)
  {
  }

  lemma {:induction false} TargetIsNextRow(v: Rows, roll: int)
    requires |v.list| > 0
    ensures var target := Target(v, Start(roll, |v.list|));
            if target < |v.list| then IsNextRow(v.list, v.avoid, roll, target)
            else forall i: nat :: !WorthTuning(v.list, v.avoid, i)
  {
    forall i: nat
      ensures WorthTuning(v.list, v.avoid, i) <==> i < |v.list| && Eligible(v, i)
    {
      EligibleIsWorthTuning(v, i);
    }
  }

  /** One cycle, whatever the cursor and the tuner's answer. It fails exactly when there is a row
      worth tuning and the tuner refuses it; it tunes exactly the next such row, when accepted; the
      cursor then stands behind that row, stays when refused, and steps on when there is none. */
  lemma {:induction false} CycleDoesExactly(v: Rows, roll: int, accepted: bool)
    requires |v.list| > 0
    ensures var some := exists i: nat :: WorthTuning(v.list, v.avoid, i);
            && (RefusedBy(v, roll, accepted) <==> some && !accepted)
            && (if some && accepted then
                  && |TunedBy(v, roll, accepted)| == 1 && IsNextRow(v.list, v.avoid, roll, TunedBy(v, roll, accepted)[0])
                  && CursorAfter(v, roll, accepted) == TunedBy(v, roll, accepted)[0] + 1
                else TunedBy(v, roll, accepted) == [])
            && (some && !accepted ==> CursorAfter(v, roll, accepted) == roll)
            && (!some ==> CursorAfter(v, roll, accepted)
                          == if 0 <= roll < |v.list| - 1 then roll + 1 else if roll == |v.list| - 1 || |v.list| == 1 then 0 else 1)
  {
    TargetIsNextRow(v, roll);
    var target := Target(v, Start(roll, |v.list|));
    if target < |v.list| {
      assert WorthTuning(v.list, v.avoid, target);
    }
  }

  /** Over a run of as many accepted cycles as there are rows worth tuning, a row is tuned exactly if
      it is one of them: no avoided, unused or repeated row ever is. */
  lemma {:induction false} TunedExactlyWhenWorthIt(v: Rows, roll: int, answers: seq<bool>, row: nat)
    requires 0 < |answers| == |AllEligible(v)| && (forall i :: 0 <= i < |answers| ==> answers[i])
    ensures row in TunedByAll(v, roll, answers) <==> WorthTuning(v.list, v.avoid, row)
  {
    EligibleIsWorthTuning(v, row);
    var tuned := TunedByAll(v, roll, answers);
    AcceptedTunesWalkTheCircle(v, roll, answers);
    if row in tuned {
      var j :| 0 <= j < |tuned| && tuned[j] == row;
      assert row in AllEligible(v);
    }
    if WorthTuning(v.list, v.avoid, row) {
      EachEligibleRowOnce(v, roll, answers, row);
      var j :| OnlyAt(tuned, row, j);
    }
  }
}
