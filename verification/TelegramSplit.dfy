/** `splitTelegramMessage` (packages/channels/src/telegram/utils.ts), on the UTF-16 code units of the text. */
module TelegramSplit {
  import opened JsText

  newtype CodeUnit = c: int | 0 <= c < 0x1_0000
  type Text = seq<CodeUnit>

  const NEWLINE: CodeUnit := 10
  const SPACE: CodeUnit := 32

  predicate Blank(c: CodeUnit) {
    IsWhitespace(c as int)
  }

  /** `lastIndexOf`, which may find its character at `from` itself. */
  function LastIndexOf(text: Text, c: CodeUnit, from: nat): (r: int)
    ensures -1 <= r <= from && r < |text|
    ensures r >= 0 ==> text[r] == c
    ensures forall i :: r < i <= from && i < |text| ==> text[i] != c
    decreases from
  {
    if from < |text| && text[from] == c then from
    else if from == 0 then -1
    else LastIndexOf(text, c, from - 1)
  }

  /** Where the next chunk ends. */
  function CutAt(text: Text, maxLength: nat): (cut: nat)
    requires maxLength >= 1
    ensures cut <= maxLength <= 2 * cut
  {
    var newline := LastIndexOf(text, NEWLINE, maxLength);
    if newline != -1 && 2 * newline >= maxLength then newline
    else
      var space := LastIndexOf(text, SPACE, maxLength);
      if space != -1 && 2 * space >= maxLength then space else maxLength
  }

  /** A chunk and the white space dropped after it. */
  datatype Piece = Piece(chunk: Text, gap: Text)

  /** What trimming `tail` to `rest` took away. */
  function Dropped(tail: Text, rest: Text): Text
    requires |rest| <= |tail|
  {
    tail[..|tail| - |rest|]
  }

  function Pieces(text: Text, maxLength: nat): (pieces: seq<Piece>)
    requires maxLength >= 1
    decreases |text|
  {
    if |text| <= maxLength then [Piece(text, [])]
    else
      var cut := CutAt(text, maxLength);
      var rest := TrimStart(text[cut..], Blank);
      [Piece(text[..cut], Dropped(text[cut..], rest))] + if rest == [] then [] else Pieces(rest, maxLength)
  }

  function Chunks(pieces: seq<Piece>): (chunks: seq<Text>)
    ensures |chunks| == |pieces|
    ensures forall i :: 0 <= i < |pieces| ==> chunks[i] == pieces[i].chunk
  {
    seq(|pieces|, i requires 0 <= i < |pieces| => pieces[i].chunk)
  }

  function Joined(pieces: seq<Piece>): Text {
    if pieces == [] then [] else pieces[0].chunk + pieces[0].gap + Joined(pieces[1..])
  }

  /** `maxLength` is at least 1: with less the loop does not end. */
  method SplitTelegramMessage(text: Text, maxLength: nat) returns (chunks: seq<Text>)
    requires maxLength >= 1
    ensures chunks == Chunks(Pieces(text, maxLength))
  {
    if |text| <= maxLength {
      return [text];
    }
    chunks := [];
    var remaining := text;
    assert Chunks(Pieces(text, maxLength)) == Pending(text, maxLength);
    while |remaining| > 0
      invariant Chunks(Pieces(text, maxLength)) == chunks + Pending(remaining, maxLength)
      decreases |remaining|
    {
      LastChunk(remaining, maxLength);
      if |remaining| <= maxLength {
        chunks := chunks + [remaining];
        break;
      }
      var splitIndex := LastIndexOf(remaining, NEWLINE, maxLength);
      if splitIndex == -1 || 2 * splitIndex < maxLength {
        splitIndex := LastIndexOf(remaining, SPACE, maxLength);
      }
      if splitIndex == -1 || 2 * splitIndex < maxLength {
        splitIndex := maxLength;
      }
      assert splitIndex == CutAt(remaining, maxLength);
      NextChunk(chunks, remaining, maxLength);
      chunks := chunks + [remaining[..splitIndex]];
      remaining := TrimStart(remaining[splitIndex..], Blank);
    }
  }

  /** The chunks still to come. */
  function Pending(remaining: Text, maxLength: nat): seq<Text>
    requires maxLength >= 1
  {
    if remaining == [] then [] else Chunks(Pieces(remaining, maxLength))
  }

  function Rest(text: Text, maxLength: nat): Text
    requires maxLength >= 1 && |text| > maxLength
  {
    TrimStart(text[CutAt(text, maxLength)..], Blank)
  }

  lemma LastChunk(text: Text, maxLength: nat)
    requires maxLength >= 1 && text != []
    ensures |text| <= maxLength ==> Pending(text, maxLength) == [text]
  {
  }

  lemma NextChunk(sent: seq<Text>, text: Text, maxLength: nat)
    requires maxLength >= 1 && |text| > maxLength
    ensures sent + Pending(text, maxLength) ==
            (sent + [text[..CutAt(text, maxLength)]]) + Pending(Rest(text, maxLength), maxLength)
  {
    var pieces, rest := Pieces(text, maxLength), Rest(text, maxLength);
    var later := if rest == [] then [] else Pieces(rest, maxLength);
    ChunksCons(pieces[0], later);
    Regroup(sent, pieces[0].chunk, Chunks(later));
  }

  lemma ChunksCons(p: Piece, pieces: seq<Piece>)
    ensures Chunks([p] + pieces) == [p.chunk] + Chunks(pieces)
  {
  }

  lemma Regroup(sent: seq<Text>, chunk: Text, later: seq<Text>)
    ensures sent + ([chunk] + later) == (sent + [chunk]) + later
  {
  }

  // ------------------------------------------------------------------
  // Nothing is lost, nothing is too long, nothing is too short
  // ------------------------------------------------------------------

  predicate GapsBlank(pieces: seq<Piece>) {
    forall i :: 0 <= i < |pieces| ==> AllBlank(pieces[i].gap, Blank)
  }

  lemma GapsGrow(pieces: seq<Piece>)
    requires pieces != [] && AllBlank(pieces[0].gap, Blank) && GapsBlank(pieces[1..])
    ensures GapsBlank(pieces)
  {
    assert forall i :: 1 <= i < |pieces| ==> pieces[i] == pieces[1..][i - 1];
  }

  /** The text is the chunks, in order, with nothing but white space between them. */
  lemma {:induction false} Reassembles(text: Text, maxLength: nat)
    requires maxLength >= 1
    ensures Joined(Pieces(text, maxLength)) == text
    ensures GapsBlank(Pieces(text, maxLength))
    decreases |text|
  {
    var pieces := Pieces(text, maxLength);
    if |text| > maxLength {
      var rest := Rest(text, maxLength);
      FirstPiece(text, maxLength);
      if rest != [] {
        Reassembles(rest, maxLength);
      }
    }
    GapsGrow(pieces);
  }

  lemma FirstPiece(text: Text, maxLength: nat)
    requires maxLength >= 1 && |text| > maxLength
    ensures var pieces, rest := Pieces(text, maxLength), Rest(text, maxLength);
            && text == pieces[0].chunk + pieces[0].gap + rest && AllBlank(pieces[0].gap, Blank)
            && pieces[1..] == if rest == [] then [] else Pieces(rest, maxLength)
  {
    var cut, rest := CutAt(text, maxLength), Rest(text, maxLength);
    TrimSplits(text[cut..]);
    AddLast(text[..cut], Dropped(text[cut..], rest), rest);
    assert text == text[..cut] + text[cut..];
  }

  lemma TrimSplits(tail: Text)
    ensures var rest := TrimStart(tail, Blank); tail == Dropped(tail, rest) + rest && AllBlank(Dropped(tail, rest), Blank)
  {
  }

  lemma AddLast(a: Text, b: Text, c: Text)
    ensures a + (b + c) == a + b + c
  {
  }

  predicate WellSized(pieces: seq<Piece>, maxLength: nat) {
    && (forall i :: 0 <= i < |pieces| ==> 1 <= |pieces[i].chunk| <= maxLength)
    && (forall i :: 0 <= i < |pieces| - 1 ==> 2 * |pieces[i].chunk| >= maxLength)
  }

  lemma SizesGrow(p: Piece, pieces: seq<Piece>, maxLength: nat)
    requires WellSized(pieces, maxLength) && 1 <= |p.chunk| <= maxLength <= 2 * |p.chunk|
    ensures WellSized([p] + pieces, maxLength)
  {
  }

  /** No chunk of a text is empty or too long, and each but the last takes up at least half of the limit. */
  lemma {:induction false} ChunkSizes(text: Text, maxLength: nat)
    requires maxLength >= 1 && text != []
    ensures Pieces(text, maxLength) != [] && WellSized(Pieces(text, maxLength), maxLength)
    decreases |text|
  {
    if |text| > maxLength {
      var pieces, rest := Pieces(text, maxLength), Rest(text, maxLength);
      if rest != [] {
        ChunkSizes(rest, maxLength);
        SizesGrow(pieces[0], Pieces(rest, maxLength), maxLength);
      }
    }
  }

  lemma {:induction false} JoinedAtLeast(pieces: seq<Piece>, size: nat)
    requires forall i :: 0 <= i < |pieces| - 1 ==> 2 * |pieces[i].chunk| >= size
    ensures pieces != [] ==> (|pieces| - 1) * size <= 2 * |Joined(pieces)|
  {
    if |pieces| > 1 {
      JoinedAtLeast(pieces[1..], size);
      assert (|pieces| - 1) * size == (|pieces[1..]| - 1) * size + size;
    }
  }

  /** At most 2 * length / maxLength + 1 chunks. */
  lemma ChunkCount(text: Text, maxLength: nat)
    requires maxLength >= 1
    ensures (|Pieces(text, maxLength)| - 1) * maxLength <= 2 * |text|
  {
    if text != [] {
      ChunkSizes(text, maxLength);
      Reassembles(text, maxLength);
      JoinedAtLeast(Pieces(text, maxLength), maxLength);
    }
  }

  /** The characters of a text that are not white space. */
  function Ink(text: Text): Text {
    if text == [] then [] else (if Blank(text[0]) then [] else [text[0]]) + Ink(text[1..])
  }

  function InkOf(chunks: seq<Text>): Text {
    if chunks == [] then [] else Ink(chunks[0]) + InkOf(chunks[1..])
  }

  lemma {:induction false} InkAppend(left: Text, right: Text)
    ensures Ink(left + right) == Ink(left) + Ink(right)
  {
    if left == [] {
      assert left + right == right;
    } else {
      assert (left + right)[1..] == left[1..] + right;
      InkAppend(left[1..], right);
    }
  }

  lemma {:induction false} NoInk(gap: Text)
    requires AllBlank(gap, Blank)
    ensures Ink(gap) == []
  {
    if gap != [] {
      NoInk(gap[1..]);
    }
  }

  lemma {:induction false} InkJoined(pieces: seq<Piece>)
    requires GapsBlank(pieces)
    ensures Ink(Joined(pieces)) == InkOf(Chunks(pieces))
  {
    if pieces != [] {
      InkAppend(pieces[0].chunk + pieces[0].gap, Joined(pieces[1..]));
      InkAppend(pieces[0].chunk, pieces[0].gap);
      NoInk(pieces[0].gap);
      assert Chunks(pieces)[1..] == Chunks(pieces[1..]);
      InkJoined(pieces[1..]);
    }
  }

  /** Reading the chunks one after the other shows every character of the text that is not white space, in order. */
  lemma EveryCharacterSent(text: Text, maxLength: nat)
    requires maxLength >= 1
    ensures InkOf(Chunks(Pieces(text, maxLength))) == Ink(text)
  {
    Reassembles(text, maxLength);
    InkJoined(Pieces(text, maxLength));
  }

  // ------------------------------------------------------------------
  // Where the cuts fall
  // ------------------------------------------------------------------

  /** Position `i` may end a chunk at character `c`: in the second half, or just beyond the limit. */
  predicate Breaks(text: Text, maxLength: nat, c: CodeUnit, i: nat) {
    i < |text| && text[i] == c && i <= maxLength <= 2 * i
  }

  predicate LastBreak(text: Text, maxLength: nat, c: CodeUnit, i: nat) {
    Breaks(text, maxLength, c, i) && forall j :: i < j < |text| ==> !Breaks(text, maxLength, c, j)
  }

  predicate NoBreak(text: Text, maxLength: nat, c: CodeUnit) {
    forall i :: 0 <= i < |text| ==> !Breaks(text, maxLength, c, i)
  }

  /**
   * A chunk ends at the last newline of its second half; if there is none at the last space there; if there is none
   * either it is cut at the limit. Nothing else is a cut.
   */
  lemma CutExactlyWhere(text: Text, maxLength: nat, cut: nat)
    requires maxLength >= 1
    ensures cut == CutAt(text, maxLength) <==>
            || LastBreak(text, maxLength, NEWLINE, cut)
            || (NoBreak(text, maxLength, NEWLINE) && LastBreak(text, maxLength, SPACE, cut))
            || (NoBreak(text, maxLength, NEWLINE) && NoBreak(text, maxLength, SPACE) && cut == maxLength)
  {
    LastIs(text, maxLength, NEWLINE);
    LastIs(text, maxLength, SPACE);
  }

  lemma LastIs(text: Text, maxLength: nat, c: CodeUnit)
    requires maxLength >= 1
    ensures var r := LastIndexOf(text, c, maxLength);
            && (r != -1 && 2 * r >= maxLength ==>
                  LastBreak(text, maxLength, c, r) && (forall i: nat :: LastBreak(text, maxLength, c, i) ==> i == r))
            && (r == -1 || 2 * r < maxLength ==> NoBreak(text, maxLength, c) && forall i: nat :: !LastBreak(text, maxLength, c, i))
  {
  }

  predicate HighSurrogate(c: CodeUnit) {
    0xD800 <= c <= 0xDBFF
  }

  predicate LowSurrogate(c: CodeUnit) {
    0xDC00 <= c <= 0xDFFF
  }

  /** A cut takes a character outside the basic plane apart exactly when one straddles the limit and nothing breaks before. */
  lemma PairCutExactlyWhen(text: Text, maxLength: nat)
    requires maxLength >= 1 && |text| > maxLength
    ensures var cut := CutAt(text, maxLength);
            HighSurrogate(text[cut - 1]) && LowSurrogate(text[cut]) <==>
            && NoBreak(text, maxLength, NEWLINE) && NoBreak(text, maxLength, SPACE)
            && HighSurrogate(text[maxLength - 1]) && LowSurrogate(text[maxLength])
  {
    CutExactlyWhere(text, maxLength, CutAt(text, maxLength));
  }

  /** Between chunk `i` and the next a pair is taken apart, with no white space dropped there. */
  predicate TornAt(pieces: seq<Piece>, i: nat) {
    && i + 1 < |pieces| && pieces[i].gap == [] && pieces[i].chunk != [] && pieces[i + 1].chunk != []
    && HighSurrogate(pieces[i].chunk[|pieces[i].chunk| - 1]) && LowSurrogate(pieces[i + 1].chunk[0])
  }

  /** A pair straddles the limit of what is left, and nothing before it in the second half is a place to break. */
  predicate Straddles(left: Text, maxLength: nat) {
    && |left| > maxLength >= 1
    && NoBreak(left, maxLength, NEWLINE) && NoBreak(left, maxLength, SPACE)
    && HighSurrogate(left[maxLength - 1]) && LowSurrogate(left[maxLength])
  }

  /** Trimming drops nothing before a low surrogate, and what it leaves does not begin with one otherwise. */
  lemma TrimKeepsLow(tail: Text)
    requires tail != []
    ensures var rest := TrimStart(tail, Blank);
            |rest| == |tail| && LowSurrogate(rest[0]) <==> LowSurrogate(tail[0])
  {
    var rest := TrimStart(tail, Blank);
    if |rest| == |tail| {
      assert rest == tail;
    } else {
      assert Blank(tail[..|tail| - |rest|][0]);
    }
  }

  lemma HeadOfPieces(text: Text, maxLength: nat)
    requires maxLength >= 1 && text != []
    ensures Pieces(text, maxLength) != [] && Pieces(text, maxLength)[0].chunk != []
    ensures Pieces(text, maxLength)[0].chunk[0] == text[0]
  {
  }

  lemma FirstTorn(text: Text, maxLength: nat)
    requires maxLength >= 1
    ensures TornAt(Pieces(text, maxLength), 0) <==> Straddles(text, maxLength)
  {
    if |text| > maxLength {
      var cut, rest := CutAt(text, maxLength), Rest(text, maxLength);
      PairCutExactlyWhen(text, maxLength);
      TrimKeepsLow(text[cut..]);
      TornByCut(text, maxLength, cut, rest);
    }
  }

  lemma TornByCut(text: Text, maxLength: nat, cut: nat, rest: Text)
    requires maxLength >= 1 && |text| > maxLength && cut == CutAt(text, maxLength) && rest == Rest(text, maxLength)
    ensures TornAt(Pieces(text, maxLength), 0) <==>
            |rest| == |text| - cut && LowSurrogate(rest[0]) && HighSurrogate(text[cut - 1])
  {
    var pieces := Pieces(text, maxLength);
    FirstPiece(text, maxLength);
    assert pieces[0] == Piece(text[..cut], Dropped(text[cut..], rest));
    if rest != [] {
      HeadOfPieces(rest, maxLength);
      assert pieces[1] == pieces[1..][0];
    }
  }

  /**
   * Over a whole message: the boundary after chunk `i` takes a pair apart exactly when one straddles the limit of what was
   * left at that point, which is the chunks from `i` on and the white space between them.
   */
  lemma {:induction false} MessageTornExactlyWhen(text: Text, maxLength: nat, i: nat)
    requires maxLength >= 1 && i < |Pieces(text, maxLength)|
    ensures TornAt(Pieces(text, maxLength), i) <==> Straddles(Joined(Pieces(text, maxLength)[i..]), maxLength)
    decreases i
  {
    var pieces := Pieces(text, maxLength);
    if i == 0 {
      Reassembles(text, maxLength);
      assert pieces[0..] == pieces;
      FirstTorn(text, maxLength);
    } else {
      FirstPiece(text, maxLength);
      var rest := Rest(text, maxLength);
      MessageTornExactlyWhen(rest, maxLength, i - 1);
      LaterTorn(pieces, i);
      assert pieces[i..] == pieces[1..][i - 1..];
    }
  }

  lemma LaterTorn(pieces: seq<Piece>, i: nat)
    requires 0 < i < |pieces|
    ensures TornAt(pieces, i) <==> TornAt(pieces[1..], i - 1)
  {
  }

  lemma ThreeUnitsTorn(text: Text)
    requires |text| == 3 && text[0] == 65 && HighSurrogate(text[1]) && LowSurrogate(text[2])
    ensures TornAt(Pieces(text, 2), 0)
  {
    FirstTorn(text, 2);
  }

  /** The letter A and one emoji, under a limit of two units. */
  lemma PairTorn()
    ensures TornAt(Pieces([65, 0xD83D, 0xDE00], 2), 0)
  {
    ThreeUnitsTorn([65, 0xD83D, 0xDE00]);
  }
}
