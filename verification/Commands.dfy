/** The command envelope of the frontend-to-decoder queue: what a slot holds, how a
    payload is stored in it, and which envelopes the drain accepts. */
module Commands {

  type Byte = b: int | 0 <= b < 256

  const EXPORT_ID := 594      // DSD_APP_CMD_TG_LIST_EXPORT
  const DECRYPTION_ID := 654  // DSD_APP_CMD_DECRYPTION_APPLY
  const EXPORT_PATH_OFFSET := 12
  const DECRYPTION_SIZE := 4352

  /** One slot: `n` payload bytes in use at the front of a fixed-size data area. */
  datatype Command = Command(n: nat, id: int, truncated: bool, data: seq<Byte>)

  /** A submitter's argument: a null pointer with a claimed size, or a readable buffer. */
  datatype Payload = Absent(size: nat) | Bytes(bytes: seq<Byte>)

  /** What the compiler fixes: the size of a slot's data area and the table of smallest
      payload sizes. Both contain sizes of platform structures, so they are parameters;
      the two entries the results depend on are pinned. */
  datatype Layout = Layout(dataMax: nat, minSize: map<int, nat>) {
    ghost predicate Valid() {
      && dataMax >= 16384
      && EXPORT_ID in minSize && minSize[EXPORT_ID] == EXPORT_PATH_OFFSET + 1
      && DECRYPTION_ID in minSize && minSize[DECRYPTION_ID] == DECRYPTION_SIZE
    }
  }

  function Zeros(k: nat): (r: seq<Byte>)
    ensures |r| == k
    ensures forall i :: 0 <= i < k ==> r[i] == 0
  {
    seq(k, _ => 0)
  }

  /** A slot after the secure erase. */
  function Cleared(dataMax: nat): Command {
    Command(0, 0, false, Zeros(dataMax))
  }

  predicate IsCoalescible(id: int) {
    || id == 104 || id == 105 || id == 530 || id == 483 || id == 492 || id == 484
    || id == 485 || id == 486 || id == 487 || id == 488 || id == 502 || id == 494
    || id == 495 || id == 496 || id == 503 || id == 506 || id == 507
  }

  predicate IsString(id: int) {
    || id == 403 || 440 <= id <= 446 || id == 520 || id == 521 || id == 542 || id == 560
    || id == 572 || 561 <= id <= 563 || 645 <= id <= 651 || id == 567 || id == 568
  }

  predicate IsInt32(id: int) {
    || id == 596 || id == 653 || id == 20 || id == 21 || id == 78 || id == 100 || id == 104
    || id == 105 || id == 482 || 484 <= id <= 486 || 488 <= id <= 491 || id == 500
    || 503 <= id <= 507 || id == 530 || 494 <= id <= 496
  }

  predicate IsAction(id: int) {
    || 1 <= id <= 3 || 10 <= id <= 12 || 30 <= id <= 31 || id == 493 || 216 <= id <= 218
    || id == 40 || id == 50 || 52 <= id <= 57 || id == 70 || id == 71 || 73 <= id <= 77
    || id == 79 || 90 <= id <= 92 || 101 <= id <= 103 || id == 107 || id == 108
    || 200 <= id <= 215 || 564 <= id <= 566 || id == 573 || 300 <= id <= 305
    || 307 <= id <= 309 || 400 <= id <= 402 || id == 421 || 423 <= id <= 426
    || 430 <= id <= 433 || id == 447 || id == 498 || id == 480 || id == 481 || id == 540
    || id == 541 || id == 543 || 620 <= id <= 627
  }

  /** The shape every written slot keeps: a full-size data area that is zero past the
      live payload. */
  ghost predicate WellStored(c: Command, dataMax: nat) {
    && |c.data| == dataMax
    && c.n <= dataMax
    && forall i :: c.n <= i < dataMax ==> c.data[i] == 0
  }

  function Size(p: Payload): nat {
    match p case Absent(size) => size case Bytes(bytes) => |bytes|
  }

  /** The number of payload bytes a slot takes from a submitter. */
  function CopySize(dataMax: nat, p: Payload): (k: nat)
    ensures k <= dataMax && k <= Size(p)
  {
    match p
    case Absent(_) => 0
    case Bytes(bytes) => if |bytes| > dataMax then dataMax else |bytes|
  }

  /** The slot content for one submission. */
  function Stored(dataMax: nat, id: int, p: Payload): (c: Command)
    ensures WellStored(c, dataMax) && c.id == id
    ensures c.truncated <==> Size(p) > c.n
    ensures p.Bytes? && |p.bytes| <= dataMax ==> c.n == |p.bytes| && c.data[..c.n] == p.bytes
    ensures c.truncated && IsString(id) && c.n > 0 ==> c.data[c.n - 1] == 0
  {
    var k := CopySize(dataMax, p);
    var truncated := Size(p) > k;
    var body := if p.Bytes? then p.bytes[..k] else [];
    var text := if k > 0 && truncated && IsString(id) then body[k - 1 := 0] else body;
    Command(k, id, truncated, text + Zeros(dataMax - k))
  }

  /** The envelope check the drain applies before dispatch. */
  predicate PayloadIsValid(layout: Layout, c: Command) {
    if c.truncated && !IsString(c.id) then false
    else if IsAction(c.id) then c.n == 0
    else if IsInt32(c.id) then c.n >= 4
    else if IsString(c.id) then c.n > 0
    else if c.id in layout.minSize then layout.minSize[c.id] == 0 || c.n >= layout.minSize[c.id]
    else true
  }

  /** How many bytes a submission offers to be read. */
  function Readable(p: Payload): nat {
    match p case Absent(_) => 0 case Bytes(bytes) => |bytes|
  }

  /** A slot keeps the front of what it is given: as much as fits, but for the last byte of a text
      that was cut, which ends it. */
  lemma {:induction false} StoredKeepsTheFront(dataMax: nat, id: int, p: Payload)
    ensures var c := Stored(dataMax, id, p);
            && c.n == (if Readable(p) <= dataMax then Readable(p) else dataMax)
            && forall i :: 0 <= i < c.n ==>
                 c.data[i] == if Readable(p) > dataMax && IsString(id) && i == dataMax - 1 then 0 else p.bytes[i]
  {
  }

  /** What the drain accepts, in terms of what was submitted: an action without a payload; a 32-bit
      setting of at least four bytes; a text of at least one, even one too long to keep; anything
      else of its smallest size. Nothing but a text may have been cut, and a null pointer with a
      size is read as cut. */
  lemma {:induction false} SubmissionIsAcceptedExactlyWhen(layout: Layout, id: int, p: Payload)
    requires layout.Valid()
    ensures var whole, n := Size(p) <= Readable(p) <= layout.dataMax, Readable(p);
            PayloadIsValid(layout, Stored(layout.dataMax, id, p)) <==>
              if IsString(id) then n > 0
              else whole && (if IsAction(id) then n == 0
                             else if IsInt32(id) then n >= 4
                             else id in layout.minSize ==> n >= layout.minSize[id])
  {
    StoredKeepsTheFront(layout.dataMax, id, p);
  }

  /** Commands that owe a retained result are never overwritten in place, and no string
      or action is: only fixed-size setters are. */
  lemma {:induction false} CoalescibleSettersOweNoResult(id: int)
    requires IsCoalescible(id)
    ensures id != EXPORT_ID && id != DECRYPTION_ID && !IsString(id) && !IsAction(id)
  {
  }

  /** Little-endian value of a byte string. */
  function LittleEndian(bs: seq<Byte>): nat {
    if |bs| == 0 then 0 else bs[0] + 256 * LittleEndian(bs[1..])
  }

  function Encoded(v: nat, k: nat): (bs: seq<Byte>)
    ensures |bs| == k
  {
    if k == 0 then [] else [v % 256] + Encoded(v / 256, k - 1)
  }

  function Power256(k: nat): nat {
    if k == 0 then 1 else 256 * Power256(k - 1)
  }

  lemma {:induction false} DecodeEncoded(v: nat, k: nat)
    requires v < Power256(k)
    ensures LittleEndian(Encoded(v, k)) == v
  {
    if k > 0 {
      DecodeEncoded(v / 256, k - 1);
      assert Encoded(v, k)[1..] == Encoded(v / 256, k - 1);
    }
  }

  /** Bytes `from..from+k` of a slot, read as an unsigned little-endian integer. */
  function Field(c: Command, from: nat, k: nat): nat
    requires from + k <= |c.data|
  {
    LittleEndian(c.data[from..from + k])
  }
}
