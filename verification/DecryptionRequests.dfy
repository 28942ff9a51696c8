/** Decryption requests from the submitter's bytes to the published result: what is read back, the
    status decided in terms of the request, and the result that identifies it. */
module DecryptionRequests {
  import opened Commands
  import opened Results
  import opened KeyCommands

  /** A request as the submitter fills it in, field by field; 32-bit fields unsigned. */
  datatype Request = Request(
    requestId: nat, sessionGeneration: nat, tuneGeneration: nat, keyEpoch: nat,
    fields: nat, scope: nat, source: nat, keyType: nat, force: nat,
    targetId: seq<Byte>, profileRef: seq<Byte>, value: seq<Byte>,
    keysHex: seq<Byte>, keysDec: seq<Byte>, mapFile: seq<Byte>, padding: seq<Byte>)

  ghost predicate Fits(r: Request) {
    && r.requestId < Power256(8) && r.sessionGeneration < Power256(8) && r.tuneGeneration < Power256(8) && r.keyEpoch < Power256(8)
    && r.fields < Power256(4) && r.scope < Power256(4) && r.source < Power256(4) && r.keyType < Power256(4) && r.force < Power256(4)
    && |r.targetId| == 64 && |r.profileRef| == 64 && |r.value| == 72
    && |r.keysHex| == 1024 && |r.keysDec| == 1024 && |r.mapFile| == 2048 && |r.padding| == 4
  }

  function Numbers(r: Request): (bs: seq<Byte>)
    ensures |bs| == 52
  {
    Encoded(r.requestId, 8) + Encoded(r.sessionGeneration, 8) + Encoded(r.tuneGeneration, 8) + Encoded(r.keyEpoch, 8)
    + Encoded(r.fields, 4) + Encoded(r.scope, 4) + Encoded(r.source, 4) + Encoded(r.keyType, 4) + Encoded(r.force, 4)
  }

  function TextBytes(r: Request): seq<Byte> {
    r.targetId + r.profileRef + r.value + r.keysHex + r.keysDec + r.mapFile + r.padding
  }

  function RequestBytes(r: Request): seq<Byte> {
    Numbers(r) + TextBytes(r)
  }

  function Submitted(dataMax: nat, r: Request): Command {
    Stored(dataMax, DECRYPTION_ID, Bytes(RequestBytes(r)))
  }

  /** What the drain reads of a request. */
  function ReadOf(r: Request): DecryptionPayload {
    DecryptionPayload(r.requestId, r.sessionGeneration, r.tuneGeneration, r.keyEpoch,
                      r.fields, Signed32(r.scope), Signed32(r.force),
                      r.targetId, r.profileRef, r.value, r.keysHex, r.keysDec, r.mapFile)
  }

  lemma {:induction false} NumbersInPlace(r: Request)
    ensures var bs := Numbers(r);
            && bs[0..8] == Encoded(r.requestId, 8) && bs[8..16] == Encoded(r.sessionGeneration, 8)
            && bs[16..24] == Encoded(r.tuneGeneration, 8) && bs[24..32] == Encoded(r.keyEpoch, 8)
            && bs[32..36] == Encoded(r.fields, 4) && bs[36..40] == Encoded(r.scope, 4) && bs[48..52] == Encoded(r.force, 4)
  {
  }

  lemma {:induction false} TextsInPlace(r: Request)
    requires Fits(r)
    ensures var bs := TextBytes(r);
            && |bs| == 4300
            && bs[0..64] == r.targetId && bs[64..128] == r.profileRef && bs[128..200] == r.value
            && bs[200..1224] == r.keysHex && bs[1224..2248] == r.keysDec && bs[2248..4296] == r.mapFile
  {
  }

  lemma {:induction false} SubmittedSlice(dataMax: nat, r: Request, from: nat, to: nat)
    requires dataMax >= DECRYPTION_SIZE && Fits(r) && from <= to <= DECRYPTION_SIZE
    ensures |RequestBytes(r)| == DECRYPTION_SIZE && Submitted(dataMax, r).n == DECRYPTION_SIZE
    ensures |Submitted(dataMax, r).data| == dataMax && !Submitted(dataMax, r).truncated
    ensures to <= 52 ==> Submitted(dataMax, r).data[from..to] == Numbers(r)[from..to]
    ensures from >= 52 ==> Submitted(dataMax, r).data[from..to] == TextBytes(r)[from - 52..to - 52]
  {
    TextsInPlace(r);
    var c, bytes := Submitted(dataMax, r), RequestBytes(r);
    assert c.data[..c.n] == bytes;
    assert c.data[from..to] == bytes[from..to];
  }

  lemma {:induction false} NumberIsReadBack(dataMax: nat, r: Request, from: nat, k: nat, v: nat)
    requires dataMax >= DECRYPTION_SIZE && Fits(r) && from + k <= 52 && v < Power256(k)
    requires Numbers(r)[from..from + k] == Encoded(v, k)
    ensures |Submitted(dataMax, r).data| == dataMax && Field(Submitted(dataMax, r), from, k) == v
  {
    SubmittedSlice(dataMax, r, from, from + k);
    DecodeEncoded(v, k);
  }

  /** Round trip: the drain reads every field as the submitter filled it in. */
  lemma {:induction false} RequestIsReadBack(dataMax: nat, r: Request)
    requires dataMax >= DECRYPTION_SIZE && Fits(r)
    ensures var c := Submitted(dataMax, r);
            && |c.data| == dataMax && c.n == DECRYPTION_SIZE
            && Parsed(c) == ReadOf(r)
  {
    NumbersInPlace(r);
    NumberIsReadBack(dataMax, r, 0, 8, r.requestId);
    NumberIsReadBack(dataMax, r, 8, 8, r.sessionGeneration);
    NumberIsReadBack(dataMax, r, 16, 8, r.tuneGeneration);
    NumberIsReadBack(dataMax, r, 24, 8, r.keyEpoch);
    NumberIsReadBack(dataMax, r, 32, 4, r.fields);
    NumberIsReadBack(dataMax, r, 36, 4, r.scope);
    NumberIsReadBack(dataMax, r, 48, 4, r.force);
    TextsAreReadBack(dataMax, r);
  }

  lemma {:induction false} TextsAreReadBack(dataMax: nat, r: Request)
    requires dataMax >= DECRYPTION_SIZE && Fits(r)
    ensures var c := Submitted(dataMax, r);
            && |c.data| == dataMax && c.n == DECRYPTION_SIZE
            && c.data[52..116] == r.targetId && c.data[116..180] == r.profileRef && c.data[180..252] == r.value
            && c.data[252..1276] == r.keysHex && c.data[1276..2300] == r.keysDec && c.data[2300..4348] == r.mapFile
  {
    TextsInPlace(r);
    SubmittedSlice(dataMax, r, 52, 116);
    SubmittedSlice(dataMax, r, 116, 180);
    SubmittedSlice(dataMax, r, 180, 252);
    SubmittedSlice(dataMax, r, 252, 1276);
    SubmittedSlice(dataMax, r, 1276, 2300);
    SubmittedSlice(dataMax, r, 2300, 4348);
  }

  // --- The published result -------------------------------------------------------------

  /** A decryption result names the request it answers: its id, its session, its scope, and the
      status it ended with, an unknown one read as invalid. */
  lemma {:induction false} KeyResultIdentifiesItsRequest(dataMax: nat, previous: KeyResult, r: Request, status: int)
    requires dataMax >= DECRYPTION_SIZE && Fits(r)
    ensures var result := KeyReport(previous, Submitted(dataMax, r), status);
            && result.requestId == r.requestId && result.sessionGeneration == r.sessionGeneration
            && (result.targetScope <==> r.scope == 1)
            && result.status == (if status <= 1 then status else -1)
            && result.sequence != 0
  {
    NumbersInPlace(r);
    NumberIsReadBack(dataMax, r, 0, 8, r.requestId);
    NumberIsReadBack(dataMax, r, 8, 8, r.sessionGeneration);
    NumberIsReadBack(dataMax, r, 36, 4, r.scope);
  }

  /** A payload too short to hold both ids is answered without them, one too short to hold its
      scope as one for the defaults. */
  lemma {:induction false} ShortRequestsAreAnswered(dataMax: nat, previous: KeyResult, bytes: seq<Byte>, status: int)
    requires dataMax >= DECRYPTION_SIZE && |bytes| < 40
    ensures var result := KeyReport(previous, Stored(dataMax, DECRYPTION_ID, Bytes(bytes)), status);
            && !result.targetScope
            && (|bytes| < 16 ==> result.requestId == 0 && result.sessionGeneration == 0)
            && (|bytes| >= 16 ==> result.requestId == LittleEndian(bytes[0..8]) && result.sessionGeneration == LittleEndian(bytes[8..16]))
  {
    var c := Stored(dataMax, DECRYPTION_ID, Bytes(bytes));
    assert c.data[..c.n] == bytes;
    if |bytes| >= 16 {
      assert c.data[0..8] == bytes[0..8] && c.data[8..16] == bytes[8..16];
    }
  }

  // --- The status -----------------------------------------------------------------------

  predicate Terminated(text: seq<Byte>) {
    0 in text
  }

  /** A byte before the terminator that is no letter, digit, underscore or dash. */
  ghost predicate HasOddByte(text: seq<Byte>) {
    exists i :: 0 <= i < |text| && OddByteAt(text, i)
  }

  ghost predicate OddByteAt(text: seq<Byte>, i: nat)
    requires i < |text|
  {
    && (forall k :: 0 <= k <= i ==> text[k] != 0)
    && !(48 <= text[i] <= 57 || 65 <= text[i] <= 90 || 97 <= text[i] <= 122 || text[i] == 95 || text[i] == 45)
  }

  ghost predicate Malformed(r: Request) {
    || r.requestId == 0 || r.sessionGeneration == 0 || r.fields > 7 || r.scope > 1
    || !Terminated(r.targetId) || !Terminated(r.profileRef) || !Terminated(r.value)
    || !Terminated(r.keysHex) || !Terminated(r.keysDec) || !Terminated(r.mapFile)
    || HasOddByte(r.profileRef)
    || (r.fields in {4, 5, 6, 7} && !(r.force in {0, 1} || 32 <= r.force <= 255))
  }

  /** The request names a target that is no longer the one being decoded. */
  predicate TargetIsGone(r: Request, around: Surroundings) {
    && r.scope == 1
    && (|r.targetId| == 0 || r.targetId[0] == 0 || r.targetId[..FirstNul(r.targetId)] != around.activeTarget
        || !around.frameIsCurrent || r.keyEpoch != around.keyEpoch)
  }

  ghost predicate Proceeds(r: Request, generation: nat, around: Surroundings) {
    !Malformed(r) && r.sessionGeneration == generation && !around.exitAtEntry && r.fields != 0
  }

  ghost predicate FindsTarget(r: Request, generation: nat, around: Surroundings) {
    Proceeds(r, generation, around) && !TargetIsGone(r, around) && !around.vendorActive
  }

  ghost predicate HasKeys(r: Request, generation: nat, around: Surroundings) {
    FindsTarget(r, generation, around) && (r.fields in {1, 3, 5, 7} ==> around.keysStatus == KEY_APPLIED)
  }

  predicate MapIsMissing(r: Request, around: Surroundings) {
    r.fields in {2, 3, 6, 7} && |r.mapFile| > 0 && r.mapFile[0] != 0 && around.mapLoadFails
  }

  ghost predicate IsPrepared(r: Request, generation: nat, around: Surroundings) {
    HasKeys(r, generation, around) && !MapIsMissing(r, around)
  }

  ghost predicate IsApplied(r: Request, generation: nat, around: Surroundings) {
    IsPrepared(r, generation, around) && !around.exitBeforeApply
  }

  lemma {:induction false} MalformedIsRejected(r: Request)
    requires Fits(r)
    ensures PayloadAccepted(ReadOf(r)) <==> !Malformed(r)
  {
    NumbersDecide(r);
    TextsDecide(ReadOf(r), r);
    ReferenceDecides(r.profileRef);
  }

  lemma {:induction false} NumbersDecide(r: Request)
    requires Fits(r)
    ensures var p := ReadOf(r);
            && (SCOPE_DEFAULTS <= p.scope <= SCOPE_TARGET <==> r.scope <= 1)
            && (r.fields <= 7 ==> ((HasField(p, FIELD_FORCE) ==> ForceIsKnown(p.force))
                                   <==> !(r.fields in {4, 5, 6, 7} && !(r.force in {0, 1} || 32 <= r.force <= 255))))
  {
    assert Power256(4) == 0x1_0000_0000;
    if r.fields <= 7 {
      FieldBits(ReadOf(r));
    }
  }

  lemma {:induction false} TextsDecide(p: DecryptionPayload, r: Request)
    requires p.targetId == r.targetId && p.profileRef == r.profileRef && p.value == r.value
    requires p.keysHex == r.keysHex && p.keysDec == r.keysDec && p.mapFile == r.mapFile
    ensures TextTerminated(p) <==>
            && Terminated(r.targetId) && Terminated(r.profileRef) && Terminated(r.value)
            && Terminated(r.keysHex) && Terminated(r.keysDec) && Terminated(r.mapFile)
  {
    assert Texts(p)[0] == r.targetId && Texts(p)[1] == r.profileRef && Texts(p)[2] == r.value;
    assert Texts(p)[3] == r.keysHex && Texts(p)[4] == r.keysDec && Texts(p)[5] == r.mapFile;
  }

  lemma {:induction false} ReferenceDecides(text: seq<Byte>)
    ensures ReferenceIsClean(text) <==> !HasOddByte(text)
  {
    if HasOddByte(text) {
      var i :| 0 <= i < |text| && OddByteAt(text, i);
      assert i < FirstNul(text);
    }
    if !ReferenceIsClean(text) {
      var i :| 0 <= i < FirstNul(text) && !IsReferenceByte(text[i]);
      assert OddByteAt(text, i);
    }
  }

  lemma {:induction false} FieldBits(p: DecryptionPayload)
    requires p.fields <= 7
    ensures HasField(p, FIELD_MATERIAL) <==> p.fields in {1, 3, 5, 7}
    ensures HasField(p, FIELD_MAP) <==> p.fields in {2, 3, 6, 7}
    ensures HasField(p, FIELD_FORCE) <==> p.fields in {4, 5, 6, 7}
  {
  }

  /** The checks in their order, in terms of the request. */
  ghost function Outcome(r: Request, generation: nat, around: Surroundings): int {
    if Malformed(r) then KEY_INVALID
    else if r.sessionGeneration != generation then KEY_STALE
    else if around.exitAtEntry then KEY_CANCELLED
    else if r.fields == 0 then KEY_APPLIED
    else if TargetIsGone(r, around) then KEY_STALE
    else if around.vendorActive then KEY_UNAVAILABLE
    else if r.fields in {1, 3, 5, 7} && around.keysStatus != KEY_APPLIED then around.keysStatus
    else if MapIsMissing(r, around) then KEY_FILE_ERROR
    else if around.exitBeforeApply then KEY_CANCELLED
    else around.applyStatus
  }

  lemma {:induction false} StatusIsOutcome(c: Command, r: Request, generation: nat, around: Surroundings)
    requires Fits(r) && |c.data| >= DECRYPTION_SIZE && c.n == DECRYPTION_SIZE && Parsed(c) == ReadOf(r)
    ensures ApplyStatus(c, generation, around) == Outcome(r, generation, around)
  {
    MalformedIsRejected(r);
    var p := ReadOf(r);
    if !Malformed(r) {
      assert p.scope == r.scope;
      FieldBits(p);
      TargetDecides(p, r, around);
      MapDecides(p, r);
    }
  }

  /** The status of a submitted request, whatever it holds and whatever the handler meets. Each of
      the seven is reported exactly in the cases named: a shutdown never hides a malformed or a
      foreign request, and nothing is loaded for a target that is gone. */
  lemma {:induction false} StatusExactlyWhen(dataMax: nat, r: Request, generation: nat, around: Surroundings)
    requires dataMax >= DECRYPTION_SIZE && Fits(r) && CalleesBehave(around)
    ensures |Submitted(dataMax, r).data| == dataMax
    ensures IsReported(r, generation, around, ApplyStatus(Submitted(dataMax, r), generation, around))
  {
    RequestIsReadBack(dataMax, r);
    StatusIsOutcome(Submitted(dataMax, r), r, generation, around);
    OutcomeIsReported(r, generation, around);
  }

  ghost predicate IsReported(r: Request, generation: nat, around: Surroundings, status: int) {
    && (status == KEY_INVALID <==>
          || Malformed(r)
          || (FindsTarget(r, generation, around) && r.fields in {1, 3, 5, 7} && around.keysStatus == KEY_INVALID)
          || (IsApplied(r, generation, around) && around.applyStatus == KEY_INVALID))
    && (status == KEY_STALE <==>
          || (!Malformed(r) && r.sessionGeneration != generation)
          || (Proceeds(r, generation, around) && TargetIsGone(r, around))
          || (IsApplied(r, generation, around) && around.applyStatus == KEY_STALE))
    && (status == KEY_CANCELLED <==>
          || (!Malformed(r) && r.sessionGeneration == generation && around.exitAtEntry)
          || (IsPrepared(r, generation, around) && around.exitBeforeApply))
    && (status == KEY_UNAVAILABLE <==>
          || (Proceeds(r, generation, around) && !TargetIsGone(r, around) && around.vendorActive)
          || (IsApplied(r, generation, around) && around.applyStatus == KEY_UNAVAILABLE))
    && (status == KEY_FILE_ERROR <==>
          || (FindsTarget(r, generation, around) && r.fields in {1, 3, 5, 7} && around.keysStatus == KEY_FILE_ERROR)
          || (HasKeys(r, generation, around) && MapIsMissing(r, around)))
    && (status == KEY_BUSY <==> IsApplied(r, generation, around) && around.applyStatus == KEY_BUSY)
    && (status == KEY_APPLIED <==>
          || (!Malformed(r) && r.sessionGeneration == generation && !around.exitAtEntry && r.fields == 0)
          || (IsApplied(r, generation, around) && around.applyStatus == KEY_APPLIED))
  }

  lemma {:induction false} OutcomeIsReported(r: Request, generation: nat, around: Surroundings)
    requires CalleesBehave(around)
    ensures IsReported(r, generation, around, Outcome(r, generation, around))
  {
  }

  lemma {:induction false} TargetDecides(p: DecryptionPayload, r: Request, around: Surroundings)
    requires p.scope == r.scope <= 1 && p.targetId == r.targetId && p.keyEpoch == r.keyEpoch && |r.targetId| > 0
    ensures LiveTargetStatus(p, around)
            == if TargetIsGone(r, around) then KEY_STALE else if around.vendorActive then KEY_UNAVAILABLE else KEY_APPLIED
  {
    assert CText(p.targetId) == [] <==> r.targetId[0] == 0;
  }

  lemma {:induction false} MapDecides(p: DecryptionPayload, r: Request)
    requires p.mapFile == r.mapFile && |r.mapFile| > 0
    ensures CText(p.mapFile) != [] <==> r.mapFile[0] != 0
  {
  }
}
