/** The 128-slot ring between many producers and the decoder thread. Each method is the
    body of one critical section of the queue lock (the drain loop holds it once per
    command); its contract equates the new state with the list operation of QueueSpec. */
module AppCommandQueue {
  import opened Commands
  import opened Results
  import opened KeyCommands
  import opened QueueSpec
  import opened Ring

  class CommandQueue {
    const layout: Layout
    const slots: array<Command>
    const keyResults: DecryptionResults
    var head: nat
    var tail: nat
    var sessionOpen: bool
    var sessionGeneration: nat
    var exportResult: ExportResult

    ghost predicate InRange()
      reads this
    {
      slots.Length == SLOTS && head < SLOTS && tail < SLOTS
    }

    ghost predicate Valid()
      reads this, slots
    {
      && InRange() && layout.Valid()
      && (forall i :: 0 <= i < |Pending()| ==> WellStored(Pending()[i], layout.dataMax))
      && Blank(slots[..], head, tail, Cleared(layout.dataMax))
      && (!sessionOpen ==> head == tail)
      && (sessionOpen ==> sessionGeneration != 0)
      && sessionGeneration <= U64_MAX
    }

    ghost function Pending(): seq<Command>
      requires InRange()
      reads this, slots
    {
      Window(slots[..], head, tail)
    }

    ghost function Contents(): Queue
      requires InRange()
      reads this, slots, keyResults
    {
      Queue(Pending(), sessionOpen, sessionGeneration, Retained(exportResult, keyResults.retained))
    }

    constructor (layout: Layout, keyResults: DecryptionResults)
      requires layout.Valid()
      ensures Valid() && fresh(slots)
      ensures Contents() == Queue([], false, 0, Retained(NO_EXPORT, keyResults.retained))
      ensures this.keyResults == keyResults && this.layout == layout
    {
      this.layout := layout;
      this.keyResults := keyResults;
      slots := new Command[SLOTS](_ => Cleared(layout.dataMax));
      head, tail := 0, 0;
      sessionOpen := false;
      sessionGeneration := 0;
      exportResult := NO_EXPORT;
    }

    lemma {:induction false} PendingIsWellformed()
      requires Valid()
      ensures Wellformed(Contents(), layout.dataMax)
    {
    }

    predicate IsFull()
      requires InRange()
      reads this
      ensures IsFull() <==> |Pending()| == LIMIT
    {
      Next(tail) == head
    }

    predicate IsEmpty()
      requires InRange()
      reads this
      ensures IsEmpty() <==> Pending() == []
    {
      head == tail
    }

    method SessionGeneration() returns (generation: nat)
      requires Valid()
      ensures generation == ReportedGeneration(Contents())
      ensures generation == 0 <==> !sessionOpen
    {
      generation := if sessionOpen then sessionGeneration else 0;
    }

    method PublishExport(c: Command, status: int)
      requires Valid() && WellStored(c, layout.dataMax)
      modifies this`exportResult
      ensures Valid() && Pending() == old(Pending())
      ensures exportResult == ExportReport(old(exportResult), c, status)
    {
      if c.id != EXPORT_ID {
        return;
      }
      var context, generation, path := 0, 0, [];
      if c.n >= 8 {
        context := Field(c, 0, 8);
      }
      if c.n >= 12 {
        generation := Field(c, 8, 4);
      }
      if c.n > EXPORT_PATH_OFFSET {
        var text := c.data[EXPORT_PATH_OFFSET..c.n];
        var end := FirstNul(text);
        if end < |text| && end < EXPORT_PATH_CAPACITY {
          path := text[..end];
        }
      }
      var sequence := exportResult.sequence + 1;
      if exportResult.sequence >= U64_MAX {
        sequence := 1;
      }
      exportResult := ExportResult(sequence, context, generation, status == APPLY_COMPLETED, path);
      assert Pending() == old(Pending());
    }

    /** Takes the head command out of the ring, erasing its slot before the head moves. */
    method TakeHead() returns (c: Command)
      requires Valid() && !IsEmpty()
      modifies this`head, slots
      ensures Valid() && WellStored(c, layout.dataMax)
      ensures c == old(Pending())[0] && Pending() == old(Pending())[1..]
    {
      TakeShrinks(slots[..], head, tail, Cleared(layout.dataMax));
      TakeKeepsBlank(slots[..], head, tail, Cleared(layout.dataMax));
      ghost var before := slots[..];
      c := slots[head];
      slots[head] := Cleared(layout.dataMax);
      assert slots[..] == before[head := Cleared(layout.dataMax)];
      head := Next(head);
    }

    method DiscardHead()
      requires Valid() && !IsEmpty()
      modifies this`head, this`exportResult, slots, keyResults
      ensures Valid()
      ensures Pending() == old(Pending())[1..]
      ensures Contents().retained == Disposed(old(Contents().retained), old(Pending())[0])
    {
      TakeShrinks(slots[..], head, tail, slots[head]);
      PublishExport(slots[head], APPLY_FAILED);
      keyResults.Publish(slots[head], KEY_CANCELLED);
      var _ := TakeHead();
    }

    method SessionSetOpen(open: bool)
      requires Valid()
      modifies this`head, this`exportResult, this`sessionOpen, this`sessionGeneration, slots, keyResults
      ensures Valid()
      ensures old(Wellformed(Contents(), layout.dataMax))
      ensures Contents() == old(SessionEdge(layout.dataMax, Contents(), open))
    {
      PendingIsWellformed();
      DiscardAll();
      if open {
        sessionGeneration := if sessionGeneration == U64_MAX then 1 else sessionGeneration + 1;
      }
      sessionOpen := open;
    }

    /** The loop of a session edge. */
    method DiscardAll()
      requires Valid()
      modifies this`head, this`exportResult, slots, keyResults
      ensures Valid() && head == tail && Pending() == []
      ensures forall c :: c in old(Pending()) ==> c.n <= |c.data|
      ensures Contents().retained == old(AllDisposed(Contents().retained, Pending()))
    {
      PendingIsWellformed();
      while head != tail
        invariant Valid()
        invariant forall c :: c in Pending() ==> c.n <= |c.data|
        invariant AllDisposed(Contents().retained, Pending()) == old(AllDisposed(Contents().retained, Pending()))
        decreases |Pending()|
      {
        DiscardHead();
      }
    }

    /** The slot just before tail when it holds `id`; SLOTS otherwise. */
    method FindPendingTail(id: int) returns (slot: nat)
      requires Valid()
      ensures slot < SLOTS <==> |Pending()| > 0 && Pending()[|Pending()| - 1].id == id
      ensures slot < SLOTS ==> slot == Previous(tail)
    {
      if IsEmpty() {
        return SLOTS;
      }
      ReplaceLast(slots[..], head, tail, slots[0]);
      slot := Previous(tail);
      if slots[slot].id != id {
        slot := SLOTS;
      }
    }

    /** Erases the slot, then fills it: a shorter payload leaves nothing of a longer one. */
    method StorePayload(slot: nat, id: int, payload: Payload)
      requires InRange() && layout.Valid() && slot < SLOTS
      modifies slots
      ensures slots[..] == old(slots[..])[slot := Stored(layout.dataMax, id, payload)]
    {
      slots[slot] := Cleared(layout.dataMax);
      var copySize := CopySize(layout.dataMax, payload);
      var truncated := Size(payload) > copySize;
      var data := slots[slot].data;
      if copySize > 0 {
        data := payload.bytes[..copySize] + data[copySize..];
        if truncated && IsString(id) {
          data := data[copySize - 1 := 0];
        }
      }
      assert data == Stored(layout.dataMax, id, payload).data;
      slots[slot] := Command(copySize, id, truncated, data);
    }

    /** Writes the free slot at tail and moves tail past it. */
    method Append(id: int, payload: Payload)
      requires Valid() && sessionOpen && !IsFull()
      modifies this`tail, slots
      ensures Valid()
      ensures Pending() == old(Pending()) + [Stored(layout.dataMax, id, payload)]
    {
      AppendExtends(slots[..], head, tail, Stored(layout.dataMax, id, payload));
      AppendKeepsBlank(slots[..], head, tail, Stored(layout.dataMax, id, payload), Cleared(layout.dataMax));
      StorePayload(tail, id, payload);
      tail := Next(tail);
    }

    /** Overwrites the newest pending command in place. */
    method ReplaceTail(slot: nat, id: int, payload: Payload)
      requires Valid() && !IsEmpty() && slot == Previous(tail)
      modifies slots
      ensures Valid()
      ensures Pending() == old(Pending())[..old(|Pending()|) - 1] + [Stored(layout.dataMax, id, payload)]
    {
      ReplaceLast(slots[..], head, tail, Stored(layout.dataMax, id, payload));
      ReplaceKeepsBlank(slots[..], head, tail, Stored(layout.dataMax, id, payload), Cleared(layout.dataMax));
      StorePayload(slot, id, payload);
    }

    /** The path past the coalescing check: evict the oldest when full, then append. */
    method Enqueue(id: int, payload: Payload)
      requires Valid() && sessionOpen
      modifies this`head, this`tail, this`exportResult, slots, keyResults
      ensures Valid()
      ensures Pending() == Newest(old(Pending()) + [Stored(layout.dataMax, id, payload)])
      ensures old(|Pending()|) < LIMIT ==> Contents().retained == old(Contents().retained)
      ensures old(|Pending()|) == LIMIT ==> Contents().retained == Disposed(old(Contents().retained), old(Pending())[0])
      ensures old(|Pending()|) <= LIMIT
    {
      ghost var before, c := Pending(), Stored(layout.dataMax, id, payload);
      if IsFull() {
        DiscardHead();
        assert before[1..] + [c] == (before + [c])[1..];
      }
      ghost var retained := Contents().retained;
      Append(id, payload);
      assert Contents().retained == retained;
    }

    /** The coalescing check: a setter overwrites only the same setter, only at the tail. */
    method Coalesce(id: int, payload: Payload) returns (coalesced: bool)
      requires Valid() && sessionOpen
      modifies slots
      ensures Valid()
      ensures coalesced <==> old(Overwrites(Pending(), Stored(layout.dataMax, id, payload)))
      ensures coalesced ==> Pending() == Extended(old(Pending()), Stored(layout.dataMax, id, payload))
      ensures !coalesced ==> Pending() == old(Pending())
    {
      coalesced := false;
      if IsCoalescible(id) {
        var slot := FindPendingTail(id);
        if slot < SLOTS {
          ReplaceTail(slot, id, payload);
          coalesced := true;
        }
      }
    }

    method Submit(id: int, payload: Payload) returns (status: SubmitStatus)
      requires Valid()
      modifies this`head, this`tail, this`exportResult, slots, keyResults
      ensures Valid()
      ensures old(Wellformed(Contents(), layout.dataMax))
      ensures Contents() == old(Submitted(layout.dataMax, Contents(), Stored(layout.dataMax, id, payload)))
      ensures status == old(SubmitResult(Contents(), Stored(layout.dataMax, id, payload)))
    {
      PendingIsWellformed();
      if !sessionOpen {
        return Rejected;
      }
      var coalesced := Coalesce(id, payload);
      if coalesced {
        return Coalesced;
      }
      Enqueue(id, payload);
      status := Queued;
    }

    /** One critical section of the drain loop: the oldest command, or none. */
    method Pop() returns (have: bool, c: Command)
      requires Valid()
      modifies this`head, slots
      ensures Valid()
      ensures have <==> old(Pending()) != []
      ensures have ==> c == old(Pending())[0] && WellStored(c, layout.dataMax) && Contents() == Popped(old(Contents()))
      ensures !have ==> Contents() == old(Contents())
    {
      have, c := false, Cleared(layout.dataMax);
      if !IsEmpty() {
        c := TakeHead();
        have := true;
      }
    }

    /** The whole drain with no producer running: every pending command, oldest first, is
        run or rejected, and the queue is left empty. */
    method Drain<S>(world: S, handler: (S, Command) -> (S, int)) returns (world': S, count: nat)
      requires Valid()
      modifies this`head, this`exportResult, slots, keyResults
      ensures Valid() && Pending() == []
      ensures sessionOpen == old(sessionOpen) && sessionGeneration == old(sessionGeneration)
      ensures count == |old(Pending())|
      ensures forall c :: c in old(Pending()) ==> c.n <= |c.data|
      ensures (world', Contents().retained) == old(RunAll(layout, world, handler, Contents().retained, Pending()))
    {
      world', count := world, 0;
      ghost var total := |Pending()|;
      PendingIsWellformed();
      while true
        invariant Valid()
        invariant count + |Pending()| == total
        invariant forall c :: c in Pending() ==> c.n <= |c.data|
        invariant RunAll(layout, world', handler, Contents().retained, Pending())
                  == old(RunAll(layout, world, handler, Contents().retained, Pending()))
        decreases |Pending()|
      {
        var have, c := Pop();
        if !have {
          break;
        }
        world' := RunOrReject(world', handler, c);
        count := count + 1;
      }
    }

    /** The part of an iteration that no lock covers, and the two publications after it. */
    method RunOrReject<S>(world: S, handler: (S, Command) -> (S, int), c: Command) returns (world': S)
      requires Valid() && WellStored(c, layout.dataMax)
      modifies this`exportResult, keyResults
      ensures Valid() && Pending() == old(Pending())
      ensures sessionOpen == old(sessionOpen) && sessionGeneration == old(sessionGeneration)
      ensures (world', Contents().retained) == RunOne(layout, world, handler, old(Contents().retained), c)
    {
      world' := world;
      if !PayloadIsValid(layout, c) {
        PublishExport(c, APPLY_INVALID_PAYLOAD);
        keyResults.Publish(c, KEY_INVALID);
      } else {
        var (next, status) := handler(world, c);
        world' := next;
        PublishExport(c, status);
        keyResults.Publish(c, status);
      }
    }

    /** The storage audit: whatever has run, every slot outside head..tail is zero. */
    method StorageCleared() returns (clear: bool)
      requires Valid()
      ensures clear
    {
      clear := true;
      var i := tail;
      while i != head
        invariant 0 <= i < SLOTS && clear
        invariant i == head || !Live(head, tail, i)
        decreases if i <= head then head - i else head + SLOTS - i
      {
        clear := clear && slots[i] == Cleared(layout.dataMax);
        i := Next(i);
      }
      if head == tail {
        clear := forall k :: 0 <= k < SLOTS ==> slots[k] == Cleared(layout.dataMax);
      }
    }

    method TailPaddingCleared() returns (clear: bool)
      requires Valid()
      ensures clear
    {
      var c := slots[Previous(tail)];
      assert c == Cleared(layout.dataMax) || c in Pending() by {
        if head != tail {
          ReplaceLast(slots[..], head, tail, c);
        }
      }
      clear := forall k :: c.n <= k < |c.data| ==> c.data[k] == 0;
    }
  }

  /** What one command leaves: the decoder state and the retained results. */
  function RunOne<S>(layout: Layout, world: S, handler: (S, Command) -> (S, int), r: Retained, c: Command): (S, Retained)
    requires c.n <= |c.data|
  {
    if !PayloadIsValid(layout, c) then
      (world, Retained(ExportReport(r.exported, c, APPLY_INVALID_PAYLOAD), KeyReport(r.keys, c, KEY_INVALID)))
    else
      var (next, status) := handler(world, c);
      (next, Retained(ExportReport(r.exported, c, status), KeyReport(r.keys, c, status)))
  }

  /** The same of a drain of `cmds`. */
  function RunAll<S>(layout: Layout, world: S, handler: (S, Command) -> (S, int), r: Retained, cmds: seq<Command>): (S, Retained)
    requires forall c :: c in cmds ==> c.n <= |c.data|
    decreases |cmds|
  {
    if |cmds| == 0 then (world, r)
    else
      var (next, r') := RunOne(layout, world, handler, r, cmds[0]);
      RunAll(layout, next, handler, r', cmds[1..])
  }
}
