/** The two retained results: what is published when a queued export or a queued
    decryption command is drained, rejected, evicted or closed out. */
module Results {
  import opened Commands

  const U64_MAX: nat := 0xFFFF_FFFF_FFFF_FFFF

  const APPLY_COMPLETED := 1
  const APPLY_FAILED := 2
  const APPLY_INVALID_PAYLOAD := 4

  const KEY_APPLIED := 1
  const KEY_INVALID := -1
  const KEY_STALE := -2
  const KEY_UNAVAILABLE := -3
  const KEY_FILE_ERROR := -4
  const KEY_BUSY := -5
  const KEY_CANCELLED := -6

  const EXPORT_PATH_CAPACITY := 1024

  datatype ExportResult = ExportResult(sequence: nat, context: nat, generation: nat, success: bool, path: seq<Byte>)
  datatype KeyResult = KeyResult(sequence: nat, requestId: nat, sessionGeneration: nat, status: int, targetScope: bool)

  const NO_EXPORT := ExportResult(0, 0, 0, false, [])
  const NO_KEY := KeyResult(0, 0, 0, 0, false)

  /** Sequence numbers are 64-bit and step over zero, which means "nothing published". */
  function NextSequence(s: nat): nat {
    if s >= U64_MAX then 1 else s + 1
  }

  /** The sequence number in closed form, after `n` publications. */
  function SequenceAfter(n: nat): nat {
    if n == 0 then 0 else 1 + (n - 1) % U64_MAX
  }

  lemma {:induction false} SequenceAdvances(n: nat)
    ensures NextSequence(SequenceAfter(n)) == SequenceAfter(n + 1)
    ensures 1 <= SequenceAfter(n + 1) <= U64_MAX
  {
    if n > 0 {
      var q, r := (n - 1) / U64_MAX, (n - 1) % U64_MAX;
      assert n - 1 == q * U64_MAX + r;
      if r == U64_MAX - 1 {
        assert n == (q + 1) * U64_MAX + 0;
        DivisionIsUnique(n, q + 1, 0);
      } else {
        assert n == q * U64_MAX + (r + 1);
        DivisionIsUnique(n, q, r + 1);
      }
    }
  }

  lemma {:induction false} DivisionIsUnique(n: nat, q: nat, r: nat)
    requires n == q * U64_MAX + r && r < U64_MAX
    ensures n % U64_MAX == r
  {
  }

  /** Index of the first zero byte, or the length when there is none. */
  function FirstNul(s: seq<Byte>): (k: nat)
    ensures k <= |s|
    ensures k < |s| ==> s[k] == 0
    ensures forall i :: 0 <= i < k ==> s[i] != 0
  {
    if |s| == 0 || s[0] == 0 then 0 else 1 + FirstNul(s[1..])
  }

  /** The requested destination, or empty when it is unterminated or too long to retain. */
  function ExportPath(c: Command): seq<Byte>
    requires c.n <= |c.data|
  {
    if c.n <= EXPORT_PATH_OFFSET then []
    else
      var text := c.data[EXPORT_PATH_OFFSET..c.n];
      var end := FirstNul(text);
      if end < |text| && end < EXPORT_PATH_CAPACITY then text[..end] else []
  }

  /** The export result that follows `previous` when `c` ends with `status`. */
  function ExportReport(previous: ExportResult, c: Command, status: int): ExportResult
    requires c.n <= |c.data|
  {
    if c.id != EXPORT_ID then previous
    else ExportResult(NextSequence(previous.sequence),
                      if c.n >= 8 then Field(c, 0, 8) else 0,
                      if c.n >= 12 then Field(c, 8, 4) else 0,
                      status == APPLY_COMPLETED,
                      ExportPath(c))
  }

  /** The decryption result that follows `previous` when `c` ends with `status`. */
  function KeyReport(previous: KeyResult, c: Command, status: int): KeyResult
    requires c.n <= |c.data|
  {
    if c.id != DECRYPTION_ID then previous
    else KeyResult(NextSequence(previous.sequence),
                   if c.n >= 16 then Field(c, 0, 8) else 0,
                   if c.n >= 16 then Field(c, 8, 8) else 0,
                   if status > KEY_APPLIED then KEY_INVALID else status,
                   c.n >= 40 && Field(c, 36, 4) == 1)
  }

  /** The bytes a frontend submits for one export request. */
  function ExportPayload(context: nat, generation: nat, path: seq<Byte>): seq<Byte> {
    Encoded(context, 8) + Encoded(generation, 4) + path + [0]
  }

  /** An export result names the request it answers: every field of the request survives
      the envelope, and a path survives exactly when its length can be retained. */
  lemma {:induction false} ExportResultIdentifiesItsRequest(
    dataMax: nat, previous: ExportResult, context: nat, generation: nat, path: seq<Byte>, status: int)
    requires context < Power256(8) && generation < Power256(4)
    requires forall i :: 0 <= i < |path| ==> path[i] != 0
    requires 13 + |path| <= dataMax
    ensures var r := ExportReport(previous, Stored(dataMax, EXPORT_ID, Bytes(ExportPayload(context, generation, path))), status);
            && r.context == context && r.generation == generation
            && (r.success <==> status == APPLY_COMPLETED)
            && r.path == (if |path| < EXPORT_PATH_CAPACITY then path else [])
            && r.sequence != 0
  {
    var bytes := ExportPayload(context, generation, path);
    var c := Stored(dataMax, EXPORT_ID, Bytes(bytes));
    assert c.n == |bytes| && c.data[..c.n] == bytes;
    assert c.data[0..8] == bytes[0..8] == Encoded(context, 8);
    assert c.data[8..12] == bytes[8..12] == Encoded(generation, 4);
    assert c.data[12..c.n] == bytes[12..] == path + [0];
    assert (path + [0])[|path|] == 0;
    DecodeEncoded(context, 8);
    DecodeEncoded(generation, 4);
  }
}
