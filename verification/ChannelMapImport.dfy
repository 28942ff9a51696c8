/** Importing a channel map: the file is read into a throwaway state, and the live map is
    replaced by it wholesale or left as it was. */
module ChannelMapImport {
  import opened ChannelCycle
  import opened Commands
  import opened Pointers
  import opened ScanState

  const PATH_SIZE := 1024

  /** The size of the largest object, at least what the C standard guarantees, and of the
      elements of the list tail. */
  datatype Platform = Platform(sizeMax: nat, longSize: nat) {
    predicate Valid() {
      sizeMax >= 65535 && longSize > 0
    }
  }

  // --- Room for a longer list -----------------------------------------------------------

  /** Doubling from 16, or from what there is, until `needed` fits. */
  function Grown(capacity: nat, needed: nat, sizeMax: nat): (c: nat)
    requires capacity > 0
    ensures needed <= c && capacity <= c
    ensures c == capacity || c == needed || c < 2 * needed
    decreases needed - capacity
  {
    if capacity >= needed then capacity
    else if capacity > sizeMax / 2 then needed
    else Grown(capacity * 2, needed, sizeMax)
  }

  /** The new capacity, or zero when its size in bytes would not fit a size. The arithmetic
      never exceeds `sizeMax`. */
  method GrownCapacity(current: nat, needed: nat, elementSize: nat, sizeMax: nat) returns (capacity: nat)
    requires sizeMax >= 65535 && elementSize > 0 && current <= sizeMax && needed <= sizeMax
    ensures capacity != 0 ==> capacity == Grown(if current > 0 then current else 16, needed, sizeMax)
    ensures capacity != 0 ==> needed <= capacity && current <= capacity && capacity * elementSize <= sizeMax
    ensures capacity == 0 ==> Grown(if current > 0 then current else 16, needed, sizeMax) * elementSize > sizeMax
  {
    capacity := if current > 0 then current else 16;
    ghost var first := capacity;
    while capacity < needed
      invariant 0 < capacity <= sizeMax
      invariant Grown(capacity, needed, sizeMax) == Grown(first, needed, sizeMax)
      decreases needed - capacity
    {
      if capacity > sizeMax / 2 {
        capacity := needed;
        break;
      }
      capacity := capacity * 2;
    }
    Fits(capacity, elementSize, sizeMax);
    if capacity > sizeMax / elementSize {
      capacity := 0;
    }
  }

  lemma {:induction false} Fits(n: nat, size: nat, limit: nat)
    requires size > 0
    ensures n <= limit / size <==> n * size <= limit
  {
    var q, r := limit / size, limit % size;
    assert limit == q * size + r;
    if n <= q {
      assert n * size <= q * size;
    } else {
      assert n * size >= (q + 1) * size == q * size + size;
    }
  }

  /** Whether room for `needed` rows can be had. */
  predicate RoomFor(needed: nat, capacity: nat, platform: Platform, outOfMemory: bool) {
    needed <= EMBEDDED || needed - EMBEDDED <= capacity ||
    (Grown(if capacity > 0 then capacity else 16, needed - EMBEDDED, platform.sizeMax) * platform.longSize <= platform.sizeMax
     && !outOfMemory)
  }

  /** Makes room for `needed` rows. It never shrinks or changes the list; when it fails,
      nothing has changed; when it moves the tail, the old block is released. */
  method Reserve(state: State, heap: Heap, needed: nat, platform: Platform, outOfMemory: bool) returns (ok: bool)
    requires platform.Valid() && needed <= platform.sizeMax && |Content(state.stores.tail)| <= platform.sizeMax
    requires heap.Valid() && One(state.stores.tail) <= heap.live
    modifies state`stores, heap
    ensures heap.Valid() && state.stores == old(state.stores).(tail := state.stores.tail)
    ensures ok <==> RoomFor(needed, |Content(old(state.stores.tail))|, platform, outOfMemory)
    ensures ok ==> needed <= EMBEDDED || needed - EMBEDDED <= |Content(state.stores.tail)|
    ensures || (state.stores == old(state.stores) && heap.live == old(heap.live))
            || (ok && Moved(old(state.stores.tail), state.stores.tail, old(heap.live), heap.live))
  {
    if needed <= EMBEDDED {
      return true;
    }
    var more, has := needed - EMBEDDED, |Content(state.stores.tail)|;
    if more <= has {
      return true;
    }
    var capacity := GrownCapacity(has, more, platform.longSize, platform.sizeMax);
    if capacity == 0 || outOfMemory {
      return false;
    }
    var id := heap.Alloc();
    heap.Free(state.stores.tail);
    state.stores := state.stores.(tail := At(id, Content(state.stores.tail) + Zeroed(capacity - has)));
    ok := true;
  }

  /** A block has moved to a new address: the content is kept and followed by zeros, the old
      block is released. */
  ghost predicate Moved(before: Block<int>, after: Block<int>, liveBefore: set<nat>, liveAfter: set<nat>) {
    && after.At? && Content(before) <= after.data && after.id !in liveBefore
    && liveAfter == liveBefore - One(before) + {after.id}
  }

  function Zeroed(k: nat): seq<int> {
    seq(k, _ => 0)
  }

  // --- Releasing ------------------------------------------------------------------------

  lemma {:induction false} RowIdsNext(rows: seq<Block<int>>, i: nat)
    requires i < |rows|
    ensures RowIds(rows[..i + 1]) == RowIds(rows[..i]) + One(rows[i])
  {
    var more, less := rows[..i + 1], rows[..i];
    forall id
      ensures id in RowIds(more) <==> id in RowIds(less) + One(rows[i])
    {
      if id in RowIds(less) {
        var k :| 0 <= k < |less| && less[k].At? && less[k].id == id;
        assert more[k] == less[k];
      }
      if id in One(rows[i]) {
        assert more[i].id == id;
      }
      if id in RowIds(more) {
        var k :| 0 <= k < |more| && more[k].At? && more[k].id == id;
        assert k < i ==> less[k] == more[k];
      }
    }
  }

  /** Releases every row's entries. */
  method EntriesFree(rows: seq<Block<int>>, heap: Heap)
    requires heap.Valid() && RowsApart(rows) && RowIds(rows) <= heap.live
    modifies heap
    ensures heap.Valid() && heap.live == old(heap.live) - RowIds(rows)
  {
    for i := 0 to |rows|
      invariant heap.Valid() && heap.live == old(heap.live) - RowIds(rows[..i])
    {
      RowIdsNext(rows, i);
      if rows[i].At? {
        assert rows[i].id in RowIds(rows);
        assert rows[i].id !in RowIds(rows[..i]);
      }
      heap.Free(rows[i]);
    }
    assert rows[..|rows|] == rows;
  }

  method KeysFree(state: State, heap: Heap)
    requires heap.Valid() && KeyIds(state.stores.keys) <= heap.live
    requires RowsApart(Content(state.stores.keys)) && One(state.stores.keys) !! RowIds(Content(state.stores.keys))
    modifies state`stores, heap
    ensures heap.Valid() && state.stores == old(state.stores).(keys := Null)
    ensures heap.live == old(heap.live) - KeyIds(old(state.stores.keys))
  {
    EntriesFree(Content(state.stores.keys), heap);
    heap.Free(state.stores.keys);
    state.stores := state.stores.(keys := Null);
  }

  method NamesFree(state: State, heap: Heap)
    requires heap.Valid() && One(state.stores.names) <= heap.live
    modifies state`stores, heap
    ensures heap.Valid() && state.stores == old(state.stores).(names := Null)
    ensures heap.live == old(heap.live) - One(old(state.stores.names))
  {
    heap.Free(state.stores.names);
    state.stores := state.stores.(names := Null);
  }

  method AvoidFree(state: State, heap: Heap)
    requires heap.Valid() && One(state.stores.avoid) <= heap.live
    modifies state`stores, heap
    ensures heap.Valid() && state.stores == old(state.stores).(avoid := Null)
    ensures heap.live == old(heap.live) - One(old(state.stores.avoid))
  {
    heap.Free(state.stores.avoid);
    state.stores := state.stores.(avoid := Null);
  }

  method TailFree(state: State, heap: Heap)
    requires heap.Valid() && One(state.stores.tail) <= heap.live
    modifies state`stores, heap
    ensures heap.Valid() && state.stores == old(state.stores).(tail := Null)
    ensures heap.live == old(heap.live) - One(old(state.stores.tail))
  {
    heap.Free(state.stores.tail);
    state.stores := state.stores.(tail := Null);
  }

  /** Installs `modes`, releasing what it replaces. */
  method ModesSet(state: State, heap: Heap, modes: Block<int>)
    requires heap.Valid() && One(state.stores.modes) <= heap.live && One(state.stores.modes) !! One(modes)
    modifies state`stores, heap
    ensures heap.Valid() && state.stores == old(state.stores).(modes := modes)
    ensures heap.live == old(heap.live) - One(old(state.stores.modes))
  {
    heap.Free(state.stores.modes);
    state.stores := state.stores.(modes := modes);
  }

  const NOTHING := Stores(Null, Null, Null, Null, Null)

  /** Releases everything a state's scan list holds on the heap. */
  method ListFree(state: State, heap: Heap)
    requires heap.Valid() && OwnedOnce(state.stores) && Owned(state.stores) <= heap.live
    modifies state`stores, heap
    ensures heap.Valid() && state.stores == NOTHING && heap.live == old(heap.live) - Owned(old(state.stores))
  {
    ModesSet(state, heap, Null);
    TailFree(state, heap);
    NamesFree(state, heap);
    AvoidFree(state, heap);
    KeysFree(state, heap);
  }

  // --- Adoption -------------------------------------------------------------------------

  /** The modes move: those of `dst` are released, those of `src` change hands. */
  method ModesMove(dst: State, src: State, heap: Heap)
    requires dst != src && heap.Valid() && One(dst.stores.modes) <= heap.live && One(dst.stores.modes) !! One(src.stores.modes)
    modifies dst`stores, src`stores, heap
    ensures heap.Valid() && heap.live == old(heap.live) - One(old(dst.stores.modes))
    ensures dst.stores == old(dst.stores).(modes := old(src.stores.modes)) && src.stores == old(src.stores).(modes := Null)
  {
    var moved := src.stores.modes;
    src.stores := src.stores.(modes := Null);
    ModesSet(dst, heap, moved);
  }

  method NamesMove(dst: State, src: State, heap: Heap)
    requires dst != src && heap.Valid() && One(dst.stores.names) <= heap.live
    modifies dst`stores, src`stores, heap
    ensures heap.Valid() && heap.live == old(heap.live) - One(old(dst.stores.names))
    ensures dst.stores == old(dst.stores).(names := old(src.stores.names)) && src.stores == old(src.stores).(names := Null)
  {
    NamesFree(dst, heap);
    dst.stores := dst.stores.(names := src.stores.names);
    src.stores := src.stores.(names := Null);
  }

  method KeysMove(dst: State, src: State, heap: Heap)
    requires dst != src && heap.Valid() && KeyIds(dst.stores.keys) <= heap.live
    requires RowsApart(Content(dst.stores.keys)) && One(dst.stores.keys) !! RowIds(Content(dst.stores.keys))
    modifies dst`stores, src`stores, heap
    ensures heap.Valid() && heap.live == old(heap.live) - KeyIds(old(dst.stores.keys))
    ensures dst.stores == old(dst.stores).(keys := old(src.stores.keys)) && src.stores == old(src.stores).(keys := Null)
  {
    KeysFree(dst, heap);
    dst.stores := dst.stores.(keys := src.stores.keys);
    src.stores := src.stores.(keys := Null);
  }

  /** As far as the list reaches past the embedded part, the two tails agree. */
  predicate SamePrefix(a: Block<int>, b: Block<int>, count: int) {
    count > EMBEDDED ==>
      var k := count - EMBEDDED;
      a.At? && b.At? && k <= |a.data| && k <= |b.data| && a.data[..k] == b.data[..k]
  }

  /** Copies the tables and the list; there is room for it. */
  method TablesCopy(dst: State, src: State)
    requires dst != src && src.Picture().Valid()
    requires src.cursor.count > EMBEDDED ==> src.cursor.count - EMBEDDED <= |Content(dst.stores.tail)|
    modifies dst`tables, dst`stores
    ensures dst.tables == src.tables && dst.stores == old(dst.stores).(tail := dst.stores.tail)
    ensures One(dst.stores.tail) == One(old(dst.stores.tail)) && SamePrefix(dst.stores.tail, src.stores.tail, src.cursor.count)
  {
    dst.tables := src.tables;
    if src.cursor.count > EMBEDDED {
      var k := src.cursor.count - EMBEDDED;
      dst.stores := dst.stores.(tail := At(dst.stores.tail.id, src.stores.tail.data[..k] + dst.stores.tail.data[k..]));
    }
  }

  const U64 := 0x1_0000_0000_0000_0000

  /** Nothing of the session that belonged to the old rows is left. */
  predicate IsReset(s: Snapshot) {
    && s.cursor == Cursor(s.cursor.count, 0, 0, 0, -1.0, 0, 0) && s.stores.avoid == Null
    && s.trust == Zeroed(TRUST_SIZE)
  }

  /** The map `now` is what `was` showed, with the session starting over. */
  ghost predicate Replaced(now: Snapshot, was: Snapshot) {
    && now.Valid() && now.List() == was.List() && now.tables == was.tables
    && now.stores.names == was.stores.names && now.stores.keys == was.stores.keys && now.stores.modes == was.stores.modes
    && IsReset(now)
  }

  /** What the source of an adoption keeps. */
  function Stripped(s: Stores): Stores {
    Stores(s.tail, Null, s.avoid, Null, Null)
  }

  /** Modes, names and keys of `src` replace those of `dst`, which are released. */
  method StoresMove(dst: State, src: State, heap: Heap)
    requires dst != src && heap.Valid()
    requires OwnedOnce(dst.stores) && Owned(dst.stores) <= heap.live && Owned(dst.stores) !! Owned(src.stores)
    modifies dst`stores, src`stores, heap
    ensures heap.Valid() && src.stores == Stripped(old(src.stores))
    ensures dst.stores == old(Stores(dst.stores.tail, src.stores.names, dst.stores.avoid, src.stores.keys, src.stores.modes))
    ensures heap.live == old(heap.live) - old(One(dst.stores.modes) + One(dst.stores.names) + KeyIds(dst.stores.keys))
  {
    ModesMove(dst, src, heap);
    NamesMove(dst, src, heap);
    KeysMove(dst, src, heap);
  }

  /** The session starts over on a list of `count` rows. */
  method Restart(dst: State, count: nat, heap: Heap)
    requires heap.Valid() && One(dst.stores.avoid) <= heap.live
    modifies dst`cursor, dst`stores, dst`trust, dst`mapSeq, heap
    ensures heap.Valid() && heap.live == old(heap.live) - One(old(dst.stores.avoid))
    ensures dst.stores == old(dst.stores).(avoid := Null)
    ensures IsReset(dst.Picture()) && dst.cursor.count == count && dst.mapSeq == (old(dst.mapSeq) + 1) % U64
  {
    dst.cursor := dst.cursor.(count := count, roll := 0);
    AvoidFree(dst, heap);
    dst.cursor := dst.cursor.(avoidCount := 0, scanHold := 0);
    dst.cursor := dst.cursor.(visitSince := -1.0, visitRollSeen := 0, visitRearm := 0);
    dst.trust := Zeroed(TRUST_SIZE);
    dst.mapSeq := (dst.mapSeq + 1) % U64;
  }

  /** Equal parts, as far as the count reaches, make equal lists. */
  lemma {:induction false} SameList(now: Snapshot, was: Snapshot)
    requires was.Valid() && now.tables.embedded == was.tables.embedded
    requires now.cursor.count == if was.cursor.count > 0 then was.cursor.count else 0
    requires SamePrefix(now.stores.tail, was.stores.tail, was.cursor.count)
    ensures now.Valid() && now.List() == was.List()
  {
    var n := was.cursor.count;
    if n > EMBEDDED {
      var k := n - EMBEDDED;
      assert (now.tables.embedded + now.stores.tail.data)[..n] == now.tables.embedded + now.stores.tail.data[..k];
      assert (was.tables.embedded + was.stores.tail.data)[..n] == was.tables.embedded + was.stores.tail.data[..k];
    } else if n > 0 {
      assert now.List() == now.tables.embedded[..n];
      assert was.List() == was.tables.embedded[..n];
    }
  }

  /** What is live once everything but the tail has been released. */
  function Kept(live: set<nat>, s: Stores): set<nat> {
    live - (One(s.modes) + One(s.names) + KeyIds(s.keys)) - One(s.avoid)
  }

  lemma {:induction false} AvoidIsStillLive(live: set<nat>, s: Stores)
    requires OwnedOnce(s) && Owned(s) <= live
    ensures One(s.avoid) <= live - (One(s.modes) + One(s.names) + KeyIds(s.keys))
  {
  }

  /** The part of an adoption that cannot fail: `dst` becomes what `src` was, on the tail it
      has; its other blocks are released. */
  method Install(dst: State, src: State, heap: Heap)
    requires dst != src && src.Picture().Valid() && heap.Valid()
    requires src.cursor.count > EMBEDDED ==> src.cursor.count - EMBEDDED <= |Content(dst.stores.tail)|
    requires OwnedOnce(dst.stores) && Owned(dst.stores) <= heap.live && Owned(dst.stores) !! Owned(src.stores)
    modifies dst, src`stores, heap
    ensures heap.Valid() && Replaced(dst.Picture(), old(src.Picture())) && dst.mapSeq == (old(dst.mapSeq) + 1) % U64
    ensures One(dst.stores.tail) == One(old(dst.stores.tail)) && src.stores == Stripped(old(src.stores))
    ensures heap.live == Kept(old(heap.live), old(dst.stores))
  {
    AvoidIsStillLive(heap.live, dst.stores);
    TablesCopy(dst, src);
    StoresMove(dst, src, heap);
    Restart(dst, if src.cursor.count > 0 then src.cursor.count else 0, heap);
    SameList(dst.Picture(), old(src.Picture()));
  }

  // --- All or nothing -------------------------------------------------------------------

  function Positive(count: int): nat {
    if count > 0 then count else 0
  }

  /** When an adoption goes through: the imported list has the tail its length calls for,
      and there is room for it. */
  predicate Adoptable(dst: Snapshot, src: Snapshot, platform: Platform, outOfMemory: bool) {
    && (src.cursor.count > EMBEDDED ==> src.stores.tail.At?)
    && RoomFor(Positive(src.cursor.count), |Content(dst.stores.tail)|, platform, outOfMemory)
  }

  /** Adoption. On success the live map shows what the imported one showed; on failure both
      are as they were; either way no block is lost and none is owned twice. */
  method Adopt(dst: State, src: State, heap: Heap, platform: Platform, outOfMemory: bool, ghost others: set<nat>) returns (rc: int)
    requires dst != src && dst.Picture().Valid() && src.Picture().Shaped() && heap.Valid()
    requires platform.Valid() && src.cursor.count <= platform.sizeMax && |Content(dst.stores.tail)| <= platform.sizeMax
    requires Accounted(heap.live, others, dst.stores, src.stores)
    modifies dst, src`stores, heap
    ensures heap.Valid() && Accounted(heap.live, others, dst.stores, src.stores)
    ensures rc == if Adoptable(old(dst.Picture()), old(src.Picture()), platform, outOfMemory) then 0 else -1
    ensures rc == 0 ==> Replaced(dst.Picture(), old(src.Picture())) && dst.mapSeq == (old(dst.mapSeq) + 1) % U64
    ensures rc != 0 ==> dst.Picture() == old(dst.Picture()) && src.Picture() == old(src.Picture())
  {
    var count := if src.cursor.count > 0 then src.cursor.count else 0;
    if count > EMBEDDED && src.stores.tail.Null? {
      return -1;
    }
    var ok := Reserve(dst, heap, count, platform, outOfMemory);
    if !ok {
      return -1;
    }
    ghost var live, stores := heap.live, dst.stores;
    TailMoved(old(heap.live), live, others, old(dst.stores), stores, src.stores);
    Install(dst, src, heap);
    MapMoved(live, heap.live, others, stores, old(src.stores), dst.stores);
    rc := 0;
  }

  lemma {:induction false} TailMoved(before: set<nat>, live: set<nat>, others: set<nat>, was: Stores, now: Stores, src: Stores)
    requires Accounted(before, others, was, src) && now == was.(tail := now.tail)
    requires (now == was && live == before) || Moved(was.tail, now.tail, before, live)
    ensures Accounted(live, others, now, src)
  {
  }

  lemma {:induction false} MapMoved(before: set<nat>, live: set<nat>, others: set<nat>, first: Stores, second: Stores, now: Stores)
    requires Accounted(before, others, first, second) && live == Kept(before, first)
    requires One(now.tail) == One(first.tail) && now == Stores(now.tail, second.names, Null, second.keys, second.modes)
    ensures Accounted(live, others, now, Stripped(second))
  {
  }

  // --- The import -----------------------------------------------------------------------

  class Options {
    var chanInFile: seq<Byte>
    var trunkScanEnabled: int

    constructor ()
      ensures chanInFile == Zeros(PATH_SIZE) && trunkScanEnabled == 0
    {
      chanInFile, trunkScanEnabled := Zeros(PATH_SIZE), 0;
    }
  }

  /** The path buffer after a bounded copy: as much of the path as fits, then zeros. */
  function PathBuffer(path: seq<Byte>): (buffer: seq<Byte>)
    ensures |buffer| == PATH_SIZE && buffer[PATH_SIZE - 1] == 0
    ensures |path| < PATH_SIZE ==> buffer[..|path|] == path
  {
    var k := if |path| > PATH_SIZE - 1 then PATH_SIZE - 1 else |path|;
    path[..k] + Zeros(PATH_SIZE - k)
  }

  /** What the allocation and the importer deliver: no memory for a throwaway state, or the
      state they filled, with the importer's status. */
  datatype Delivery = NoMemory | Read(imported: State, importRc: int)

  /** When an import is accepted. */
  predicate Accepted(live: Snapshot, imported: Snapshot, importRc: int, platform: Platform, outOfMemory: bool) {
    importRc == 0 && imported.tables.usedCount > 0 && Adoptable(live, imported, platform, outOfMemory)
  }

  /** The condition in terms of the file and the memory: an importer's error or an empty table is
      refused, and so is a long list without its tail; a list with room in the live map is taken;
      one that needs more is taken if there is memory for up to twice its length, and only if there
      is for its length. */
  lemma {:induction false} AcceptedExactlyWhen(live: Snapshot, imported: Snapshot, importRc: int, platform: Platform, outOfMemory: bool)
    requires platform.Valid()
    ensures var accepted := Accepted(live, imported, importRc, platform, outOfMemory);
            var more, room := imported.cursor.count - 26, |Content(live.stores.tail)|;
            if importRc != 0 || imported.tables.usedCount == 0 || (more > 0 && imported.stores.tail.Null?) then !accepted
            else if more <= room then accepted
            else && (accepted ==> !outOfMemory && more * platform.longSize <= platform.sizeMax)
                 && (!outOfMemory && AtLeast16(2 * more) * platform.longSize <= platform.sizeMax ==> accepted)
  {
    var more, room := imported.cursor.count - 26, |Content(live.stores.tail)|;
    if more > 0 && more > room {
      var first := if room > 0 then room else 16;
      var grown := Grown(first, more, platform.sizeMax);
      Scaled(more, grown, platform.longSize);
      assert grown <= AtLeast16(2 * more);
      Scaled(grown, AtLeast16(2 * more), platform.longSize);
    }
  }

  function AtLeast16(n: nat): nat {
    if n < 16 then 16 else n
  }

  lemma {:induction false} Scaled(a: nat, b: nat, size: nat)
    requires a <= b
    ensures a * size <= b * size
  {
  }

  /** Adopts the throwaway state if it is any good, then releases what it still holds. */
  method AdoptOrDiscard(state: State, imported: State, importRc: int, heap: Heap, platform: Platform, outOfMemory: bool,
                        ghost others: set<nat>) returns (ok: bool)
    requires state != imported && state.Picture().Valid() && imported.Picture().Shaped() && heap.Valid()
    requires platform.Valid() && imported.cursor.count <= platform.sizeMax && |Content(state.stores.tail)| <= platform.sizeMax
    requires Accounted(heap.live, others, state.stores, imported.stores)
    modifies state, imported`stores, heap
    ensures heap.Valid() && imported.stores == NOTHING && Accounted(heap.live, others, state.stores, NOTHING)
    ensures ok <==> Accepted(old(state.Picture()), old(imported.Picture()), importRc, platform, outOfMemory)
    ensures ok ==> Replaced(state.Picture(), old(imported.Picture())) && state.mapSeq == (old(state.mapSeq) + 1) % U64
    ensures !ok ==> state.Picture() == old(state.Picture())
  {
    var rc := -1;
    if importRc == 0 && imported.tables.usedCount > 0 {
      rc := Adopt(state, imported, heap, platform, outOfMemory, others);
    }
    ListFree(imported, heap);
    ok := rc == 0;
  }

  predicate Asked(opts: Options?, state: State?, path: Given<seq<Byte>>) {
    opts != null && state != null && path.Given? && |path.value| > 0
  }

  /** The import. On success the live map is the file's and the path names the file; on any
      failure the map and the path are as they were. Whatever happens, every heap block of
      either map is owned by the live map alone, or has been released once. */
  method ImportChannelMap(opts: Options?, state: State?, path: Given<seq<Byte>>, delivery: Delivery, heap: Heap,
                          platform: Platform, outOfMemory: bool, ghost others: set<nat>) returns (rc: int)
    requires opts != null ==> |opts.chanInFile| == PATH_SIZE
    requires platform.Valid() && heap.Valid()
    requires state != null ==> state.Picture().Valid() && |Content(state.stores.tail)| <= platform.sizeMax
    requires delivery.Read? ==> delivery.imported.Picture().Shaped() && delivery.imported.cursor.count <= platform.sizeMax
    requires state != null && delivery.Read? ==>
               state != delivery.imported && Accounted(heap.live, others, state.stores, delivery.imported.stores)
    modifies opts, state, if delivery.Read? then {delivery.imported} else {}, heap
    ensures rc == 0 || rc == -1
    ensures rc == 0 <==>
            && Asked(opts, state, path) && old(opts.trunkScanEnabled) != 1 && delivery.Read?
            && Accepted(old(state.Picture()), old(delivery.imported.Picture()), delivery.importRc, platform, outOfMemory)
    ensures delivery.Read? && (delivery.importRc != 0 || old(delivery.imported.tables.usedCount) == 0) ==> rc == -1
    ensures delivery.NoMemory? || opts == null || state == null || path.NoPointer? || path.value == [] ==> rc == -1
    ensures opts != null && old(opts.trunkScanEnabled) == 1 ==> rc == -1
    ensures rc == 0 ==>
              && Replaced(state.Picture(), old(delivery.imported.Picture()))
              && opts.chanInFile == PathBuffer(path.value)
    ensures rc == -1 ==>
              && (state != null ==> state.Picture() == old(state.Picture()))
              && (opts != null ==> opts.chanInFile == old(opts.chanInFile))
    ensures Asked(opts, state, path) && old(opts.trunkScanEnabled) != 1 && delivery.Read? ==>
              delivery.imported.stores == NOTHING && Accounted(heap.live, others, state.stores, NOTHING)
  {
    if opts == null || state == null || path.NoPointer? || |path.value| == 0 {
      return -1;
    }
    if opts.trunkScanEnabled == 1 {
      return -1;
    }
    var oldPath := opts.chanInFile;
    opts.chanInFile := PathBuffer(path.value);
    if delivery.NoMemory? {
      opts.chanInFile := oldPath;
      return -1;
    }
    var ok := AdoptOrDiscard(state, delivery.imported, delivery.importRc, heap, platform, outOfMemory, others);
    if ok {
      return 0;
    }
    opts.chanInFile := oldPath;
    rc := -1;
  }

  /** A replaced map remembers nothing of the old session: no row is avoided, nothing is trusted, and
      the scan holds, visits and rolls from the start. */
  lemma {:induction false} ImportForgetsTheSession(now: Snapshot, was: Snapshot, i: nat)
    requires Replaced(now, was)
    ensures now.cursor.roll == 0 && now.cursor.avoidCount == 0 && now.cursor.scanHold == 0
    ensures now.cursor.visitSince == -1.0 && now.cursor.visitRollSeen == 0 && now.cursor.visitRearm == 0
    ensures !Avoided(Rows(now.List(), Content(now.stores.avoid)), i)
    ensures |now.trust| == TRUST_SIZE && (i < TRUST_SIZE ==> now.trust[i] == 0)
    ensures now.List() == was.List() && now.tables.chanMap == was.tables.chanMap && now.tables.usedCount == was.tables.usedCount
    ensures Content(now.stores.names) == Content(was.stores.names) && Content(now.stores.modes) == Content(was.stores.modes)
  {
  }

  /** After an import the next accepted cycle tunes the first row of the new list worth
      tuning: no row of the new list is avoided, whatever was avoided before. */
  lemma {:induction false} ImportRestartsTheHunt(now: Snapshot, was: Snapshot)
    requires Replaced(now, was) && |AllEligible(Rows(was.List(), []))| > 0
    ensures var v := Rows(now.List(), Content(now.stores.avoid));
            v == Rows(was.List(), []) && TunedBy(v, now.cursor.roll, true) == [AllEligible(v)[0]]
  {
    var v := Rows(was.List(), []);
    assert |v.list| > 0;
    TargetIsAtRank(v, 0);
  }
}
