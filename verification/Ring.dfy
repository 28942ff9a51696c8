/** A fixed circular store read as a list: the stretch from head up to tail, wrapping. */
module Ring {

  const SLOTS := 128

  /** The slot after `i`. */
  function Next(i: nat): (r: nat)
    requires i < SLOTS
    ensures r == (i + 1) % SLOTS && r < SLOTS
  {
    if i == SLOTS - 1 then 0 else i + 1
  }

  /** The slot before `i`. */
  function Previous(i: nat): (r: nat)
    requires i < SLOTS
    ensures r == (i + SLOTS - 1) % SLOTS && r < SLOTS && Next(r) == i
  {
    if i == 0 then SLOTS - 1 else i - 1
  }

  ghost predicate Indexed<T>(s: seq<T>, head: nat, tail: nat) {
    |s| == SLOTS && head < SLOTS && tail < SLOTS
  }

  predicate Live(head: nat, tail: nat, i: nat) {
    if head <= tail then head <= i < tail else i >= head || i < tail
  }

  ghost function Window<T>(s: seq<T>, head: nat, tail: nat): seq<T>
    requires Indexed(s, head, tail)
  {
    if head <= tail then s[head..tail] else s[head..] + s[..tail]
  }

  /** Every slot outside the window holds `blank`. */
  ghost predicate Blank<T>(s: seq<T>, head: nat, tail: nat, blank: T)
    requires Indexed(s, head, tail)
  {
    forall i :: 0 <= i < SLOTS && !Live(head, tail, i) ==> s[i] == blank
  }

  lemma {:induction false} AppendExtends<T>(s: seq<T>, head: nat, tail: nat, x: T)
    requires Indexed(s, head, tail) && Next(tail) != head
    ensures Window(s[tail := x], head, Next(tail)) == Window(s, head, tail) + [x]
  {
    var s' := s[tail := x];
    if head <= tail {
      if tail < SLOTS - 1 {
        assert s'[head..tail + 1] == s[head..tail] + [x];
      } else {
        assert s'[head..] == s[head..tail] + [x];
      }
    } else {
      assert s'[head..] == s[head..];
      assert s'[..tail + 1] == s[..tail] + [x];
    }
  }

  lemma {:induction false} AppendKeepsBlank<T>(s: seq<T>, head: nat, tail: nat, x: T, blank: T)
    requires Indexed(s, head, tail) && Next(tail) != head
    requires Blank(s, head, tail, blank)
    ensures Blank(s[tail := x], head, Next(tail), blank)
  {
  }

  lemma {:induction false} TakeShrinks<T>(s: seq<T>, head: nat, tail: nat, x: T)
    requires Indexed(s, head, tail) && head != tail
    ensures Window(s, head, tail) != [] && Window(s, head, tail)[0] == s[head]
    ensures Window(s[head := x], Next(head), tail) == Window(s, head, tail)[1..]
  {
    var s' := s[head := x];
    if head < tail {
      assert s'[head + 1..tail] == s[head..tail][1..];
    } else if head == SLOTS - 1 {
      assert s[head..] == [s[head]];
      assert s'[0..tail] == s[..tail];
    } else {
      assert s[head..] == [s[head]] + s[head + 1..];
      assert s'[head + 1..] == s[head + 1..];
      assert s'[..tail] == s[..tail];
    }
  }

  lemma {:induction false} TakeKeepsBlank<T>(s: seq<T>, head: nat, tail: nat, blank: T)
    requires Indexed(s, head, tail) && head != tail
    requires Blank(s, head, tail, blank)
    ensures Blank(s[head := blank], Next(head), tail, blank)
  {
  }

  lemma {:induction false} ReplaceLast<T>(s: seq<T>, head: nat, tail: nat, x: T)
    requires Indexed(s, head, tail) && head != tail
    ensures Window(s, head, tail) != []
    ensures s[Previous(tail)] == Window(s, head, tail)[|Window(s, head, tail)| - 1]
    ensures Window(s[Previous(tail) := x], head, tail) == Window(s, head, tail)[..|Window(s, head, tail)| - 1] + [x]
  {
    var s' := s[Previous(tail) := x];
    if head < tail {
      assert s'[head..tail] == s[head..tail - 1] + [x];
      assert s[head..tail] == s[head..tail - 1] + [s[tail - 1]];
    } else if tail == 0 {
      assert s'[head..] == s[head..SLOTS - 1] + [x];
      assert s[head..] == s[head..SLOTS - 1] + [s[SLOTS - 1]];
    } else {
      assert s'[head..] == s[head..];
      assert s'[..tail] == s[..tail - 1] + [x];
      assert s[..tail] == s[..tail - 1] + [s[tail - 1]];
    }
  }

  lemma {:induction false} ReplaceKeepsBlank<T>(s: seq<T>, head: nat, tail: nat, x: T, blank: T)
    requires Indexed(s, head, tail) && head != tail
    requires Blank(s, head, tail, blank)
    ensures Blank(s[Previous(tail) := x], head, tail, blank)
  {
  }
}
