/** Decryption commands: the checks a payload must pass, the order in which the
    handler decides its status, and the retained result behind its own lock. */
module KeyCommands {
  import opened Commands
  import opened Results

  const FIELD_MATERIAL := 1
  const FIELD_MAP := 2
  const FIELD_FORCE := 4
  const SCOPE_DEFAULTS := 0
  const SCOPE_TARGET := 1

  datatype DecryptionPayload = DecryptionPayload(
    requestId: nat, sessionGeneration: nat, tuneGeneration: nat, keyEpoch: nat,
    fields: nat, scope: int, force: int,
    targetId: seq<Byte>, profileRef: seq<Byte>, value: seq<Byte>,
    keysHex: seq<Byte>, keysDec: seq<Byte>, mapFile: seq<Byte>)

  /** A 32-bit field read as signed. */
  function Signed32(v: nat): int {
    if v >= 0x8000_0000 then v - 0x1_0000_0000 else v
  }

  function Parsed(c: Command): DecryptionPayload
    requires |c.data| >= DECRYPTION_SIZE
  {
    DecryptionPayload(
      Field(c, 0, 8), Field(c, 8, 8), Field(c, 16, 8), Field(c, 24, 8),
      Field(c, 32, 4), Signed32(Field(c, 36, 4)), Signed32(Field(c, 48, 4)),
      c.data[52..116], c.data[116..180], c.data[180..252],
      c.data[252..1276], c.data[1276..2300], c.data[2300..4348])
  }

  function Texts(p: DecryptionPayload): seq<seq<Byte>> {
    [p.targetId, p.profileRef, p.value, p.keysHex, p.keysDec, p.mapFile]
  }

  ghost predicate TextTerminated(p: DecryptionPayload) {
    forall i :: 0 <= i < |Texts(p)| ==> 0 in Texts(p)[i]
  }

  method PayloadTextTerminated(p: DecryptionPayload) returns (ok: bool)
    ensures ok <==> TextTerminated(p)
  {
    var strings := Texts(p);
    for i := 0 to |strings|
      invariant forall j :: 0 <= j < i ==> 0 in strings[j]
    {
      if FirstNul(strings[i]) == |strings[i]| {
        assert 0 !in strings[i];
        return false;
      }
      assert strings[i][FirstNul(strings[i])] == 0;
    }
    return true;
  }

  predicate IsReferenceByte(b: Byte) {
    || 'A' as int <= b <= 'Z' as int || 'a' as int <= b <= 'z' as int
    || '0' as int <= b <= '9' as int || b == '_' as int || b == '-' as int
  }

  /** Every byte of the profile name before its terminator is a letter, digit, `_` or `-`. */
  ghost predicate ReferenceIsClean(profileRef: seq<Byte>) {
    forall i :: 0 <= i < FirstNul(profileRef) ==> IsReferenceByte(profileRef[i])
  }

  ghost predicate ForceIsKnown(force: int) {
    force == 0 || force == 1 || 32 <= force <= 255
  }

  ghost predicate PayloadAccepted(p: DecryptionPayload) {
    && p.requestId != 0 && p.sessionGeneration != 0
    && p.fields < 8
    && SCOPE_DEFAULTS <= p.scope <= SCOPE_TARGET
    && TextTerminated(p)
    && ReferenceIsClean(p.profileRef)
    && (HasField(p, FIELD_FORCE) ==> ForceIsKnown(p.force))
  }

  predicate HasField(p: DecryptionPayload, bit: nat)
    requires bit > 0
  {
    (p.fields / bit) % 2 == 1
  }

  method ValidPayload(p: DecryptionPayload) returns (ok: bool)
    ensures ok <==> PayloadAccepted(p)
  {
    if p.requestId == 0 || p.sessionGeneration == 0 || p.fields >= 8 || p.scope < SCOPE_DEFAULTS || p.scope > SCOPE_TARGET {
      return false;
    }
    var terminated := PayloadTextTerminated(p);
    if !terminated {
      return false;
    }
    var length := FirstNul(p.profileRef);
    var span := 0;
    while span < length && IsReferenceByte(p.profileRef[span])
      invariant 0 <= span <= length
      invariant forall i :: 0 <= i < span ==> IsReferenceByte(p.profileRef[i])
    {
      span := span + 1;
    }
    if span != length {
      return false;
    }
    if HasField(p, FIELD_FORCE) && (p.force < 0 || p.force > 255 || (p.force > 1 && p.force < 32)) {
      return false;
    }
    return true;
  }

  /** What the handler learns from code outside the queue: the live scan target, the
      exit flag at its two loads, and how the key and map callees end. */
  datatype Surroundings = Surroundings(
    exitAtEntry: bool, exitBeforeApply: bool,
    activeTarget: seq<Byte>, frameIsCurrent: bool, keyEpoch: nat, vendorActive: bool,
    keysStatus: int, mapLoadFails: bool, applyStatus: int)

  function CText(s: seq<Byte>): seq<Byte> {
    s[..FirstNul(s)]
  }

  function LiveTargetStatus(p: DecryptionPayload, around: Surroundings): int {
    if p.scope == SCOPE_TARGET
       && (CText(p.targetId) == [] || CText(p.targetId) != around.activeTarget
           || !around.frameIsCurrent || p.keyEpoch != around.keyEpoch)
    then KEY_STALE
    else if around.vendorActive then KEY_UNAVAILABLE
    else KEY_APPLIED
  }

  /** The status of one decryption command run while the reported generation is
      `generation`. */
  ghost function ApplyStatus(c: Command, generation: nat, around: Surroundings): int
    requires |c.data| >= DECRYPTION_SIZE
  {
    var p := Parsed(c);
    if c.n != DECRYPTION_SIZE || !PayloadAccepted(p) then KEY_INVALID
    else if p.sessionGeneration != generation then KEY_STALE
    else if around.exitAtEntry then KEY_CANCELLED
    else if p.fields == 0 then KEY_APPLIED
    else
      var live := LiveTargetStatus(p, around);
      if live != KEY_APPLIED then live
      else if HasField(p, FIELD_MATERIAL) && around.keysStatus != KEY_APPLIED then around.keysStatus
      else if HasField(p, FIELD_MAP) && CText(p.mapFile) != [] && around.mapLoadFails then KEY_FILE_ERROR
      else if around.exitBeforeApply then KEY_CANCELLED
      else around.applyStatus
  }

  /** A command is reported applied only in the session it was made for: the payload
      passed every check and carried the generation reported when it ran. */
  lemma {:induction false} AppliedOnlyInItsOwnSession(c: Command, generation: nat, around: Surroundings)
    requires |c.data| >= DECRYPTION_SIZE
    requires ApplyStatus(c, generation, around) == KEY_APPLIED
    ensures generation != 0 && Field(c, 8, 8) == generation && c.n == DECRYPTION_SIZE
    ensures PayloadAccepted(Parsed(c)) && !around.exitAtEntry
    ensures Parsed(c).fields == 0 || (!around.exitBeforeApply && !around.vendorActive && around.applyStatus == KEY_APPLIED)
  {
  }

  /** The statuses the hidden callees can return. */
  predicate CalleesBehave(around: Surroundings) {
    && around.keysStatus in {KEY_APPLIED, KEY_INVALID, KEY_FILE_ERROR}
    && around.applyStatus in {KEY_APPLIED, KEY_INVALID, KEY_STALE, KEY_BUSY, KEY_UNAVAILABLE}
  }

  /** An accepted payload of the current session gets as far as applying something. */
  ghost predicate ReachesApply(p: DecryptionPayload, around: Surroundings) {
    && !around.exitAtEntry && p.fields != 0 && LiveTargetStatus(p, around) == KEY_APPLIED
    && (HasField(p, FIELD_MATERIAL) ==> around.keysStatus == KEY_APPLIED)
    && (HasField(p, FIELD_MAP) && CText(p.mapFile) != [] ==> !around.mapLoadFails)
  }

  /** Stale is reported exactly for an accepted payload that carries another session's
      generation, names a target that is no longer the live one, or is refused as stale by the
      target itself; a wrong generation is stale even during shutdown. */
  lemma {:induction false} StaleExactlyWhen(c: Command, generation: nat, around: Surroundings)
    requires |c.data| >= DECRYPTION_SIZE && CalleesBehave(around)
    ensures var p := Parsed(c);
            ApplyStatus(c, generation, around) == KEY_STALE
            <==> && c.n == DECRYPTION_SIZE && PayloadAccepted(p)
                 && (|| p.sessionGeneration != generation
                     || (!around.exitAtEntry && p.fields != 0 && LiveTargetStatus(p, around) == KEY_STALE)
                     || (ReachesApply(p, around) && !around.exitBeforeApply && around.applyStatus == KEY_STALE))
  {
  }

  /** Cancelled is reported exactly for an accepted payload of the current session that meets a
      shutdown: at entry, or after preparation and before anything is applied. */
  lemma {:induction false} CancelledExactlyWhen(c: Command, generation: nat, around: Surroundings)
    requires |c.data| >= DECRYPTION_SIZE && CalleesBehave(around)
    ensures var p := Parsed(c);
            ApplyStatus(c, generation, around) == KEY_CANCELLED
            <==> && c.n == DECRYPTION_SIZE && PayloadAccepted(p) && p.sessionGeneration == generation
                 && (around.exitAtEntry || (ReachesApply(p, around) && around.exitBeforeApply))
  {
  }

  method ApplyDecryption(c: Command, generation: nat, around: Surroundings) returns (status: int)
    requires |c.data| >= DECRYPTION_SIZE
    ensures status == ApplyStatus(c, generation, around)
  {
    if c.n != DECRYPTION_SIZE {
      return KEY_INVALID;
    }
    var p := Parsed(c);
    var valid := ValidPayload(p);
    if !valid {
      return KEY_INVALID;
    }
    if p.sessionGeneration != generation {
      return KEY_STALE;
    }
    if around.exitAtEntry {
      return KEY_CANCELLED;
    }
    if p.fields == 0 {
      return KEY_APPLIED;
    }
    status := LiveTargetStatus(p, around);
    if status != KEY_APPLIED {
      return;
    }
    status := if HasField(p, FIELD_MATERIAL) then around.keysStatus else KEY_APPLIED;
    if status != KEY_APPLIED {
      return;
    }
    if HasField(p, FIELD_MAP) && CText(p.mapFile) != [] && around.mapLoadFails {
      return KEY_FILE_ERROR;
    }
    if around.exitBeforeApply {
      return KEY_CANCELLED;
    }
    status := around.applyStatus;
  }

  /** The retained decryption result, which any thread may read. */
  class DecryptionResults {
    var retained: KeyResult

    constructor ()
      ensures retained == NO_KEY
    {
      retained := NO_KEY;
    }

    method Publish(c: Command, status: int)
      requires c.n <= |c.data|
      modifies this
      ensures retained == KeyReport(old(retained), c, status)
    {
      if c.id != DECRYPTION_ID {
        return;
      }
      var requestId, sessionGeneration, targetScope := 0, 0, false;
      if c.n >= 16 {
        requestId := Field(c, 0, 8);
        sessionGeneration := Field(c, 8, 8);
      }
      if c.n >= 40 {
        targetScope := Field(c, 36, 4) == 1;
      }
      var reported := if status > KEY_APPLIED then KEY_INVALID else status;
      var sequence := if retained.sequence >= U64_MAX then 1 else retained.sequence + 1;
      retained := KeyResult(sequence, requestId, sessionGeneration, reported, targetScope);
    }

    method Get() returns (result: KeyResult, published: bool)
      ensures result == retained
      ensures published <==> retained.sequence != 0
    {
      result := retained;
      published := result.sequence != 0;
    }
  }
}
