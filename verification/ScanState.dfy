/** The part of the decoder state that holds the scan list and its companions: a list split
    between an embedded array and a heap tail, and positional stores on the heap. */
module ScanState {

  const EMBEDDED := 26
  const CHANNELS := 0xFFFF
  const TRUST_SIZE := 0x1000

  /** A pointer: null, or a heap block with its address and content. The capacity kept
      beside such a pointer is the length of the content. */
  datatype Block<T> = Null | At(id: nat, data: seq<T>)

  function One<T>(block: Block<T>): set<nat> {
    if block.Null? then {} else {block.id}
  }

  function Content<T>(block: Block<T>): seq<T> {
    if block.Null? then [] else block.data
  }

  /** Which blocks have been handed out and not yet given back. */
  class Heap {
    var next: nat
    ghost var live: set<nat>

    ghost predicate Valid()
      reads this
    {
      forall id :: id in live ==> id < next
    }

    constructor ()
      ensures Valid() && live == {}
    {
      next, live := 0, {};
    }

    method Alloc() returns (id: nat)
      requires Valid()
      modifies this
      ensures Valid() && id !in old(live) && live == old(live) + {id}
    {
      id := next;
      next := next + 1;
      live := live + {id};
    }

    /** Releasing null does nothing; releasing what is not live is an error. */
    method Free<T>(block: Block<T>)
      requires Valid() && One(block) <= live
      modifies this
      ensures Valid() && live == old(live) - One(block)
    {
      ghost var gone := One(block);
      live := live - gone;
    }
  }

  datatype Cursor = Cursor(count: int, roll: int, avoidCount: nat, scanHold: int, visitSince: real, visitRollSeen: int, visitRearm: nat)

  /** The rows of a key store each hold a block of entries, or none. */
  datatype Stores = Stores(tail: Block<int>, names: Block<string>, avoid: Block<bool>, keys: Block<Block<int>>, modes: Block<int>)

  datatype Tables = Tables(embedded: seq<int>, chanMap: seq<int>, used: seq<int>, usedCount: nat)

  /** All there is of a channel map in a state. */
  datatype Snapshot = Snapshot(tables: Tables, stores: Stores, cursor: Cursor, trust: seq<int>, mapSeq: nat) {
    /** The logical list: its two parts, up to the count. */
    function List(): seq<int> {
      var all := tables.embedded + Content(stores.tail);
      if cursor.count <= 0 then [] else if cursor.count <= |all| then all[..cursor.count] else all
    }

    /** The embedded part has its size, and a tail, where there is one, reaches as far as
        the list. */
    predicate Shaped() {
      && |tables.embedded| == EMBEDDED
      && (stores.tail.At? && cursor.count > EMBEDDED ==> cursor.count - EMBEDDED <= |stores.tail.data|)
    }

    /** A list longer than the embedded part has its tail. */
    predicate Valid() {
      Shaped() && (cursor.count > EMBEDDED ==> stores.tail.At?)
    }
  }

  /** The blocks of a key store: the array, and each row's entries. */
  function RowIds(rows: seq<Block<int>>): set<nat> {
    set i | 0 <= i < |rows| && rows[i].At? :: rows[i].id
  }

  function KeyIds(keys: Block<Block<int>>): set<nat> {
    One(keys) + RowIds(Content(keys))
  }

  /** Every heap block a map owns. */
  function Owned(s: Stores): set<nat> {
    One(s.tail) + One(s.names) + One(s.avoid) + One(s.modes) + KeyIds(s.keys)
  }

  /** No block is owned twice by the same map. */
  ghost predicate OwnedOnce(s: Stores) {
    && One(s.tail) !! One(s.names) !! One(s.avoid) !! One(s.modes) !! KeyIds(s.keys)
    && One(s.keys) !! RowIds(Content(s.keys)) && RowsApart(Content(s.keys))
  }

  /** Rows with distinct entries. */
  ghost predicate RowsApart(rows: seq<Block<int>>) {
    forall i, j :: 0 <= i < j < |rows| && rows[i].At? && rows[j].At? ==> rows[i].id != rows[j].id
  }

  /** What is live belongs to `first`, to `second`, or to somebody else, and to one of them
      only: nothing is lost and nothing is owned twice. */
  ghost predicate Accounted(live: set<nat>, others: set<nat>, first: Stores, second: Stores) {
    && live == others + Owned(first) + Owned(second)
    && others !! Owned(first) !! Owned(second)
    && OwnedOnce(first) && OwnedOnce(second)
  }

  /** The decoder state's fields, in five groups. */
  class State {
    var tables: Tables
    var stores: Stores
    var cursor: Cursor
    var trust: seq<int>
    var mapSeq: nat

    constructor ()
      ensures Picture().Valid() && Owned(stores) == {} && Picture().List() == []
    {
      tables := Tables(seq(EMBEDDED, _ => 0), seq(CHANNELS, _ => 0), seq(CHANNELS, _ => 0), 0);
      stores := Stores(Null, Null, Null, Null, Null);
      cursor := Cursor(0, 0, 0, 0, 0.0, 0, 0);
      trust, mapSeq := seq(TRUST_SIZE, _ => 0), 0;
    }

    function Picture(): Snapshot
      reads this
    {
      Snapshot(tables, stores, cursor, trust, mapSeq)
    }

    function Slot(i: nat): int
      requires |tables.embedded| == EMBEDDED && (i >= EMBEDDED ==> stores.tail.At? && i - EMBEDDED < |stores.tail.data|)
      reads this
    {
      if i < EMBEDDED then tables.embedded[i] else stores.tail.data[i - EMBEDDED]
    }

    predicate AvoidGet(i: nat)
      reads this
    {
      stores.avoid.At? && i < |stores.avoid.data| && stores.avoid.data[i]
    }
  }
}
