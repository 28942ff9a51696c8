/** The thread that drains redirected output: a byte-level machine over chunked reads that
    frames lines, drops the content of lines too long to be safe, and leaves a marker. */
module LogPump {
  import opened Commands
  import opened Results

  const LINE_LIMIT := 1024
  const BUFFER := 512

  datatype Read = Chunk(bytes: seq<Byte>) | Interrupted | Closed

  /** A record submitted to the diagnostics log: text, or the marker of an omitted line. */
  datatype Record = Text(bytes: seq<Byte>) | Omitted

  predicate IsBreak(c: Byte) {
    c == 10 || c == 13
  }

  // --- What the machine computes --------------------------------------------------------

  /** The bytes between breaks, in order; the last piece is the unterminated rest. */
  function Pieces(stream: seq<Byte>): (pieces: seq<seq<Byte>>)
    ensures |pieces| > 0
  {
    if |stream| == 0 then [[]]
    else
      var before, c := Pieces(stream[..|stream| - 1]), stream[|stream| - 1];
      if IsBreak(c) then before + [[]] else before[..|before| - 1] + [Last(before) + [c]]
  }

  function Last(pieces: seq<seq<Byte>>): seq<Byte>
    requires |pieces| > 0
  {
    pieces[|pieces| - 1]
  }

  /** The break bytes of a stream, in order. */
  function Breaks(stream: seq<Byte>): seq<Byte> {
    if |stream| == 0 then []
    else
      var before, c := Breaks(stream[..|stream| - 1]), stream[|stream| - 1];
      if IsBreak(c) then before + [c] else before
  }

  /** The record of a piece is the text before its first NUL. */
  function Entry(piece: seq<Byte>, terminated: bool): seq<Record> {
    if |piece| >= LINE_LIMIT then (if terminated then [Omitted] else [])
    else if |piece| == 0 then []
    else [Text(piece[..FirstNul(piece)])]
  }

  function Entries(pieces: seq<seq<Byte>>): seq<Record> {
    if |pieces| == 0 then [] else Entries(pieces[..|pieces| - 1]) + Entry(Last(pieces), true)
  }

  /** The records of a whole stream. */
  function Frames(stream: seq<Byte>): seq<Record> {
    var pieces := Pieces(stream);
    Entries(pieces[..|pieces| - 1]) + Entry(Last(pieces), false)
  }

  /** The reads before the first that ends the stream. */
  function Open(arrivals: seq<Read>): (n: nat)
    ensures n <= |arrivals|
    ensures n < |arrivals| ==> arrivals[n].Closed?
    ensures forall i :: 0 <= i < n ==> !arrivals[i].Closed?
  {
    if |arrivals| == 0 || arrivals[0].Closed? then 0 else 1 + Open(arrivals[1..])
  }

  function Delivered(arrivals: seq<Read>): seq<Byte> {
    if |arrivals| == 0 then []
    else
      var last := arrivals[|arrivals| - 1];
      Delivered(arrivals[..|arrivals| - 1]) + (if last.Chunk? then last.bytes else [])
  }

  /** Everything the descriptor delivers before it is closed. */
  function Stream(arrivals: seq<Read>): seq<Byte> {
    Delivered(arrivals[..Open(arrivals)])
  }

  // --- The machine ----------------------------------------------------------------------

  /** The loop variables: the line so far, whether its start was dropped, the records. */
  datatype Framer = Framer(line: seq<Byte>, oversized: bool, records: seq<Record>)

  const FRESH := Framer([], false, [])

  function Fed(f: Framer, c: Byte): Framer {
    if IsBreak(c) then
      Framer([], false, f.records + (if f.oversized then [Omitted] else []) + TextOf(f.line))
    else if f.oversized then f
    else if |f.line| + 1 >= LINE_LIMIT then Framer([], true, f.records)
    else f.(line := f.line + [c])
  }

  function TextOf(line: seq<Byte>): seq<Record> {
    if |line| == 0 then [] else [Text(line[..FirstNul(line)])]
  }

  function FedAll(f: Framer, bytes: seq<Byte>): Framer {
    if |bytes| == 0 then f else Fed(FedAll(f, bytes[..|bytes| - 1]), bytes[|bytes| - 1])
  }

  lemma {:induction false} FedNext(f: Framer, bytes: seq<Byte>, i: nat)
    requires i < |bytes|
    ensures FedAll(f, bytes[..i + 1]) == Fed(FedAll(f, bytes[..i]), bytes[i])
  {
    assert bytes[..i + 1][..i] == bytes[..i];
  }

  lemma {:induction false} FedInParts(f: Framer, a: seq<Byte>, b: seq<Byte>)
    ensures FedAll(f, a + b) == FedAll(FedAll(f, a), b)
  {
    if |b| == 0 {
      assert a + b == a;
    } else {
      assert (a + b)[..|a + b| - 1] == a + b[..|b| - 1];
      FedInParts(f, a, b[..|b| - 1]);
    }
  }

  lemma {:induction false} DeliveredNext(arrivals: seq<Read>, k: nat)
    requires k < |arrivals|
    ensures Delivered(arrivals[..k + 1]) == Delivered(arrivals[..k]) + (if arrivals[k].Chunk? then arrivals[k].bytes else [])
    ensures !arrivals[k].Chunk? ==> Delivered(arrivals[..k + 1]) == Delivered(arrivals[..k])
  {
    assert arrivals[..k + 1][..k] == arrivals[..k];
  }

  /** The inner loop over one read. */
  method PumpChunk(bytes: seq<Byte>, before: Framer) returns (f: Framer)
    ensures f == FedAll(before, bytes)
  {
    var line, oversized, records := before.line, before.oversized, before.records;
    var i := 0;
    while i < |bytes|
      invariant 0 <= i <= |bytes|
      invariant Framer(line, oversized, records) == FedAll(before, bytes[..i])
    {
      var c := bytes[i];
      FedNext(before, bytes, i);
      i := i + 1;
      if c == 10 || c == 13 {
        if oversized {
          records := records + [Omitted];
          oversized := false;
        }
        if |line| > 0 {
          records := records + [Text(line[..FirstNul(line)])];
          line := [];
        }
        continue;
      }
      if oversized {
        continue;
      }
      line := line + [c];
      if |line| >= LINE_LIMIT {
        oversized := true;
        line := [];
      }
    }
    assert bytes[..|bytes|] == bytes;
    f := Framer(line, oversized, records);
  }

  /** The pump over every read of one descriptor's life (the end of the list is its end):
      however the reads chunk the stream, the records are its frames. */
  method Pump(arrivals: seq<Read>) returns (records: seq<Record>)
    requires forall i :: 0 <= i < |arrivals| && arrivals[i].Chunk? ==> 0 < |arrivals[i].bytes| <= BUFFER
    ensures records == Frames(Stream(arrivals))
  {
    var f := FRESH;
    var k := 0;
    while k < |arrivals| && !arrivals[k].Closed?
      invariant k <= Open(arrivals)
      invariant f == FedAll(FRESH, Delivered(arrivals[..k]))
    {
      DeliveredNext(arrivals, k);
      if arrivals[k].Chunk? {
        FedInParts(FRESH, Delivered(arrivals[..k]), arrivals[k].bytes);
        f := PumpChunk(arrivals[k].bytes, f);
      }
      k := k + 1;
    }
    records := f.records;
    if |f.line| > 0 {
      records := records + [Text(f.line[..FirstNul(f.line)])];
    }
    MachineFrames(Stream(arrivals));
  }

  /** What the loop variables mean: the records of the pieces ended so far, and the piece
      still open unless its start was dropped for its length. */
  ghost predicate Carries(f: Framer, pieces: seq<seq<Byte>>)
    requires |pieces| > 0
  {
    && f.records == Entries(pieces[..|pieces| - 1])
    && f.oversized == (|Last(pieces)| >= LINE_LIMIT)
    && f.line == (if f.oversized then [] else Last(pieces))
  }

  lemma {:induction false} BreakCarries(f: Framer, pieces: seq<seq<Byte>>, c: Byte)
    requires |pieces| > 0 && Carries(f, pieces) && IsBreak(c)
    ensures Carries(Fed(f, c), pieces + [[]])
  {
    assert (pieces + [[]])[..|pieces|] == pieces;
  }

  lemma {:induction false} ByteCarries(f: Framer, pieces: seq<seq<Byte>>, c: Byte)
    requires |pieces| > 0 && Carries(f, pieces) && !IsBreak(c)
    ensures Carries(Fed(f, c), pieces[..|pieces| - 1] + [Last(pieces) + [c]])
  {
    var after := pieces[..|pieces| - 1] + [Last(pieces) + [c]];
    assert after[..|after| - 1] == pieces[..|pieces| - 1];
  }

  lemma {:induction false} MachineCarries(stream: seq<Byte>)
    ensures Carries(FedAll(FRESH, stream), Pieces(stream))
  {
    if |stream| > 0 {
      var rest, c := stream[..|stream| - 1], stream[|stream| - 1];
      MachineCarries(rest);
      if IsBreak(c) {
        BreakCarries(FedAll(FRESH, rest), Pieces(rest), c);
      } else {
        ByteCarries(FedAll(FRESH, rest), Pieces(rest), c);
      }
    }
  }

  /** The machine's records, with the line left at the end, are the frames of the stream. */
  lemma {:induction false} MachineFrames(stream: seq<Byte>)
    ensures var f := FedAll(FRESH, stream);
            f.records + TextOf(f.line) == Frames(stream)
  {
    MachineCarries(stream);
  }

  // --- What a split is ------------------------------------------------------------------

  ghost predicate Unbroken(piece: seq<Byte>) {
    forall i :: 0 <= i < |piece| ==> !IsBreak(piece[i])
  }

  /** Pieces put back together with a break between neighbours. */
  function Joined(pieces: seq<seq<Byte>>, breaks: seq<Byte>): seq<Byte>
    requires |pieces| == |breaks| + 1
  {
    if |breaks| == 0 then pieces[0]
    else Joined(pieces[..|pieces| - 1], breaks[..|breaks| - 1]) + [breaks[|breaks| - 1]] + Last(pieces)
  }

  /** Break-free pieces that, joined by `breaks`, are the stream. */
  ghost predicate IsSplit(pieces: seq<seq<Byte>>, breaks: seq<Byte>, stream: seq<Byte>) {
    && |pieces| == |breaks| + 1
    && (forall i :: 0 <= i < |pieces| ==> Unbroken(pieces[i]))
    && (forall i :: 0 <= i < |breaks| ==> IsBreak(breaks[i]))
    && Joined(pieces, breaks) == stream
  }

  lemma {:induction false} SplitGrows(pieces: seq<seq<Byte>>, breaks: seq<Byte>, stream: seq<Byte>, c: Byte)
    requires IsSplit(pieces, breaks, stream) && !IsBreak(c)
    ensures IsSplit(pieces[..|pieces| - 1] + [Last(pieces) + [c]], breaks, stream + [c])
  {
    var grown := pieces[..|pieces| - 1] + [Last(pieces) + [c]];
    assert grown[..|grown| - 1] == pieces[..|pieces| - 1];
    if |breaks| > 0 {
      var head := Joined(pieces[..|pieces| - 1], breaks[..|breaks| - 1]) + [breaks[|breaks| - 1]];
      assert head + (Last(pieces) + [c]) == head + Last(pieces) + [c];
    }
  }

  lemma {:induction false} SplitBreaks(pieces: seq<seq<Byte>>, breaks: seq<Byte>, stream: seq<Byte>, c: Byte)
    requires IsSplit(pieces, breaks, stream) && IsBreak(c)
    ensures IsSplit(pieces + [[]], breaks + [c], stream + [c])
  {
    assert (pieces + [[]])[..|pieces|] == pieces && (breaks + [c])[..|breaks|] == breaks;
    assert stream + [c] + [] == stream + [c];
  }

  /** Splitting loses nothing: the pieces hold no break, and rejoined they are the stream. */
  lemma {:induction false} SplitThenJoin(stream: seq<Byte>)
    ensures IsSplit(Pieces(stream), Breaks(stream), stream)
  {
    if |stream| > 0 {
      var rest, c := stream[..|stream| - 1], stream[|stream| - 1];
      SplitThenJoin(rest);
      assert stream == rest + [c];
      if IsBreak(c) {
        SplitBreaks(Pieces(rest), Breaks(rest), rest, c);
      } else {
        SplitGrows(Pieces(rest), Breaks(rest), rest, c);
      }
    }
  }

  lemma {:induction false} PiecesOfExtension(stream: seq<Byte>, tail: seq<Byte>)
    requires Unbroken(tail)
    ensures var before := Pieces(stream);
            Pieces(stream + tail) == before[..|before| - 1] + [Last(before) + tail]
  {
    var before := Pieces(stream);
    if |tail| == 0 {
      assert stream + tail == stream && Last(before) + tail == Last(before);
    } else {
      var shorter := tail[..|tail| - 1];
      PiecesOfExtension(stream, shorter);
      assert (stream + tail)[..|stream + tail| - 1] == stream + shorter;
      assert Last(before) + shorter + [tail[|tail| - 1]] == Last(before) + tail;
    }
  }

  lemma {:induction false} PiecesOfBreak(stream: seq<Byte>, c: Byte)
    requires IsBreak(c)
    ensures Pieces(stream + [c]) == Pieces(stream) + [[]]
  {
    assert (stream + [c])[..|stream|] == stream;
  }

  /** Joining invents nothing: the split of a stream is the only one. */
  lemma {:induction false} JoinThenSplit(pieces: seq<seq<Byte>>, breaks: seq<Byte>, stream: seq<Byte>)
    requires IsSplit(pieces, breaks, stream)
    ensures Pieces(stream) == pieces
  {
    var shorter, last := pieces[..|pieces| - 1], Last(pieces);
    assert pieces == shorter + [last] && [] + last == last;
    if |breaks| == 0 {
      PiecesOfExtension([], last);
      assert [] + last == last;
    } else {
      var b := breaks[|breaks| - 1];
      var head := Joined(shorter, breaks[..|breaks| - 1]);
      JoinThenSplit(shorter, breaks[..|breaks| - 1], head);
      PiecesOfBreak(head, b);
      PiecesOfExtension(head + [b], last);
      assert (shorter + [[]])[..|shorter|] == shorter;
    }
  }

  // --- What a reader of the log gets ----------------------------------------------------

  /** A piece is recorded whole exactly when it is not empty, below the limit, and free of
      NUL bytes; the text stops at the first NUL otherwise. */
  lemma {:induction false} RecordedWholeExactlyWhen(piece: seq<Byte>, terminated: bool)
    ensures Entry(piece, terminated) == [Text(piece)] <==> 0 < |piece| < LINE_LIMIT && 0 !in piece
  {
    if 0 < |piece| < LINE_LIMIT {
      var n := FirstNul(piece);
      if 0 !in piece {
        assert n == |piece| && piece[..n] == piece;
      } else {
        assert n < |piece|;
        assert |piece[..n]| < |piece|;
      }
    }
  }

  function Written(lines: seq<seq<Byte>>): seq<Byte> {
    if |lines| == 0 then [] else Written(lines[..|lines| - 1]) + Last(lines) + [10]
  }

  function Texts(lines: seq<seq<Byte>>): seq<Record> {
    seq(|lines|, i requires 0 <= i < |lines| => Text(lines[i]))
  }

  ghost predicate IsLine(line: seq<Byte>) {
    0 < |line| < LINE_LIMIT && Unbroken(line) && 0 !in line
  }

  lemma {:induction false} PiecesOfOneMoreLine(stream: seq<Byte>, shorter: seq<seq<Byte>>, line: seq<Byte>)
    requires Pieces(stream) == shorter + [[]] && Unbroken(line)
    ensures Pieces(stream + line + [10]) == shorter + [line] + [[]]
  {
    PiecesOfExtension(stream, line);
    assert (shorter + [[]])[..|shorter|] == shorter && [] + line == line;
    PiecesOfBreak(stream + line, 10);
  }

  lemma {:induction false} PiecesOfLines(lines: seq<seq<Byte>>)
    requires forall i :: 0 <= i < |lines| ==> IsLine(lines[i])
    ensures Pieces(Written(lines)) == lines + [[]]
  {
    if |lines| > 0 {
      var shorter, line := lines[..|lines| - 1], Last(lines);
      PiecesOfLines(shorter);
      PiecesOfOneMoreLine(Written(shorter), shorter, line);
      assert shorter + [line] == lines;
    }
  }

  lemma {:induction false} EntriesOfLines(lines: seq<seq<Byte>>)
    requires forall i :: 0 <= i < |lines| ==> IsLine(lines[i])
    ensures Entries(lines) == Texts(lines)
  {
    if |lines| > 0 {
      EntriesOfLines(lines[..|lines| - 1]);
      RecordedWholeExactlyWhen(Last(lines), true);
      assert Texts(lines) == Texts(lines[..|lines| - 1]) + [Text(Last(lines))];
    }
  }

  /** Round trip: lines a writer ends with a newline come back as they were, whenever each
      is not empty, below the limit, and free of breaks and NULs. */
  lemma {:induction false} LinesComeBack(lines: seq<seq<Byte>>)
    requires forall i :: 0 <= i < |lines| ==> IsLine(lines[i])
    ensures Frames(Written(lines)) == Texts(lines)
  {
    PiecesOfLines(lines);
    EntriesOfLines(lines);
    assert (lines + [[]])[..|lines|] == lines;
    assert Entries(lines) + [] == Entries(lines);
  }

  /** The number of terminated pieces at or past the limit. */
  function Excess(pieces: seq<seq<Byte>>): nat {
    if |pieces| == 0 then 0
    else Excess(pieces[..|pieces| - 1]) + (if |Last(pieces)| >= LINE_LIMIT then 1 else 0)
  }

  function Markers(records: seq<Record>): nat {
    if |records| == 0 then 0
    else Markers(records[..|records| - 1]) + (if records[|records| - 1].Omitted? then 1 else 0)
  }

  lemma {:induction false} MarkersConcat(a: seq<Record>, b: seq<Record>)
    ensures Markers(a + b) == Markers(a) + Markers(b)
  {
    if |b| == 0 {
      assert a + b == a;
    } else {
      assert (a + b)[..|a + b| - 1] == a + b[..|b| - 1];
      MarkersConcat(a, b[..|b| - 1]);
    }
  }

  predicate IsShort(r: Record, piece: seq<Byte>) {
    0 < |piece| < LINE_LIMIT && r == Text(piece[..FirstNul(piece)])
  }

  ghost predicate FromShortPiece(r: Record, pieces: seq<seq<Byte>>) {
    exists i :: 0 <= i < |pieces| && IsShort(r, pieces[i])
  }

  lemma {:induction false} MarkersCountExcess(pieces: seq<seq<Byte>>)
    ensures Markers(Entries(pieces)) == Excess(pieces)
  {
    if |pieces| > 0 {
      var shorter := pieces[..|pieces| - 1];
      MarkersCountExcess(shorter);
      MarkersConcat(Entries(shorter), Entry(Last(pieces), true));
      assert Markers(Entry(Last(pieces), true)) == if |Last(pieces)| >= LINE_LIMIT then 1 else 0;
    }
  }

  lemma {:induction false} TextsAreWholePieces(pieces: seq<seq<Byte>>, r: Record)
    requires r in Entries(pieces) && r.Text?
    ensures FromShortPiece(r, pieces)
  {
    var shorter := pieces[..|pieces| - 1];
    if r in Entries(shorter) {
      TextsAreWholePieces(shorter, r);
      var i :| 0 <= i < |shorter| && IsShort(r, shorter[i]);
      assert pieces[i] == shorter[i];
    } else {
      assert r in Entry(Last(pieces), true);
      assert IsShort(r, pieces[|pieces| - 1]);
    }
  }

  /** Each terminated over-long piece leaves one marker, an unterminated one leaves none. */
  lemma {:induction false} OverlongPiecesLeaveMarkers(stream: seq<Byte>)
    ensures Markers(Frames(stream)) == Excess(Pieces(stream)[..|Pieces(stream)| - 1])
  {
    var pieces := Pieces(stream);
    var terminated, rest := pieces[..|pieces| - 1], Entry(Last(pieces), false);
    MarkersCountExcess(terminated);
    MarkersConcat(Entries(terminated), rest);
    assert Markers(rest) == 0;
  }

  /** No fragment of an over-long line is ever recorded: each text is a piece below the
      limit, up to its first NUL. */
  lemma {:induction false} NoFragmentIsRecorded(stream: seq<Byte>, r: Record)
    requires r in Frames(stream) && r.Text?
    ensures FromShortPiece(r, Pieces(stream))
  {
    var pieces := Pieces(stream);
    var terminated := pieces[..|pieces| - 1];
    if r in Entries(terminated) {
      TextsAreWholePieces(terminated, r);
      var i :| 0 <= i < |terminated| && IsShort(r, terminated[i]);
      assert pieces[i] == terminated[i];
    } else {
      assert r in Entry(Last(pieces), false);
      assert IsShort(r, pieces[|pieces| - 1]);
    }
  }

  // --- Reads and pieces, one by one -----------------------------------------------------

  /** A further read before the end adds its bytes and nothing else; an interruption adds nothing. */
  lemma {:induction false} StreamGrows(before: seq<Read>, read: Read)
    requires forall i :: 0 <= i < |before| ==> !before[i].Closed?
    ensures Stream(before + [read]) == Stream(before) + (if read.Chunk? then read.bytes else [])
    ensures Stream([]) == []
  {
    OpenOfOpen(before);
    assert before[..|before|] == before && (before + [read])[..|before|] == before;
    if read.Closed? {
      OpenEndsAtClose(before, []);
      assert before + [Closed] + [] == before + [read];
    } else {
      OpenOfOpen(before + [read]);
      assert (before + [read])[..|before| + 1] == before + [read];
    }
  }

  lemma {:induction false} OpenOfOpen(arrivals: seq<Read>)
    requires forall i :: 0 <= i < |arrivals| ==> !arrivals[i].Closed?
    ensures Open(arrivals) == |arrivals|
  {
    if |arrivals| > 0 {
      OpenOfOpen(arrivals[1..]);
    }
  }

  lemma {:induction false} OpenEndsAtClose(before: seq<Read>, after: seq<Read>)
    requires forall i :: 0 <= i < |before| ==> !before[i].Closed?
    ensures Open(before + [Closed] + after) == |before|
  {
    if |before| > 0 {
      OpenEndsAtClose(before[1..], after);
      assert (before + [Closed] + after)[1..] == before[1..] + [Closed] + after;
    }
  }

  /** What comes after the end of the descriptor is not read. */
  lemma {:induction false} NothingIsReadAfterTheEnd(before: seq<Read>, after: seq<Read>)
    requires forall i :: 0 <= i < |before| ==> !before[i].Closed?
    ensures Stream(before + [Closed] + after) == Stream(before)
  {
    OpenEndsAtClose(before, after);
    OpenOfOpen(before);
    assert (before + [Closed] + after)[..|before|] == before == before[..|before|];
  }

  /** The text of a piece: its front up to a NUL byte or its end. */
  predicate IsFront(text: seq<Byte>, piece: seq<Byte>) {
    text <= piece && 0 !in text && (text == piece || piece[|text|] == 0)
  }

  /** What one piece leaves: an empty one nothing; a short one exactly one text, its front; a long
      one a marker if it was ended and nothing if it was not. */
  lemma {:induction false} EveryPieceLeavesItsRecord(piece: seq<Byte>, terminated: bool)
    ensures var entry := Entry(piece, terminated);
            if |piece| == 0 then entry == []
            else if |piece| < 1024 then |entry| == 1 && entry[0].Text? && IsFront(entry[0].bytes, piece)
            else entry == if terminated then [Omitted] else []
  {
    var n := FirstNul(piece);
    assert forall i :: 0 <= i < n ==> piece[..n][i] != 0;
  }

  /** And the records are those of the pieces, one piece after the other, in the order written. */
  lemma {:induction false} RecordsFollowThePieces(a: seq<seq<Byte>>, b: seq<seq<Byte>>)
    ensures Entries(a + b) == Entries(a) + Entries(b)
    ensures |b| == 1 ==> Entries(b) == Entry(b[0], true)
  {
    if |b| == 0 {
      assert a + b == a;
      assert Entries(a) + [] == Entries(a);
    } else {
      var shorter := b[..|b| - 1];
      RecordsFollowThePieces(a, shorter);
      assert (a + b)[..|a + b| - 1] == a + shorter;
      assert Entries(a) + Entries(shorter) + Entry(Last(b), true) == Entries(a) + (Entries(shorter) + Entry(Last(b), true));
      if |b| == 1 {
        assert Entries(shorter) == [] && [] + Entry(b[0], true) == Entry(b[0], true);
      }
    }
  }
}
