/**
  Bounded windows over source text (crates/cce-engine/src/engine.rs,
  `chunk_ranges`): at most `maximum` bytes each, cut on character boundaries and
  preferably after a newline.
 */
module Chunker {
  import opened Wrappers
  import opened Utf8

  const NEWLINE: byte := 0x0A

  datatype Range = Range(start: nat, end: nat)

  /** `rfind('\n')` */
  function LastNewline(s: seq<byte>): (r: Option<nat>)
    ensures r.Some? ==> r.value < |s| && s[r.value] == NEWLINE && forall i :: r.value < i < |s| ==> s[i] != NEWLINE
    ensures r.None? ==> forall i :: 0 <= i < |s| ==> s[i] != NEWLINE
  {
    if s == [] then None
    else if s[|s| - 1] == NEWLINE then Some(|s| - 1)
    else LastNewline(s[..|s| - 1])
  }

  /** `text.get(a..b)` */
  function Slice(text: seq<byte>, a: nat, b: nat): Option<seq<byte>> {
    if a <= b <= |text| && Boundary(text, a) && Boundary(text, b) then Some(text[a..b]) else None
  }

  /** The last character boundary in (cursor, p], or cursor. */
  function BackOff(text: seq<byte>, cursor: nat, p: nat): (q: nat)
    requires cursor <= p
    ensures cursor <= q <= p
    ensures q == cursor || Boundary(text, q)
    ensures forall j :: q < j <= p ==> !Boundary(text, j)
    decreases p
  {
    if p > cursor && !Boundary(text, p) then BackOff(text, cursor, p - 1) else p
  }

  function Reach(cursor: nat, end: nat, maximum: nat): nat {
    if cursor + maximum < end then cursor + maximum else end
  }

  /** Just after the last newline of text[cursor..fit], when more than `half` bytes come before it. */
  function AtNewline(text: seq<byte>, cursor: nat, fit: nat, half: nat): (q: nat)
    requires cursor <= fit
    ensures cursor <= q <= fit
  {
    match Slice(text, cursor, fit)
    case None => fit
    case Some(slice) =>
      match LastNewline(slice)
      case None => fit
      case Some(newline) => if newline > half then cursor + newline + 1 else fit
  }

  /** Where the chunk that starts at `cursor` ends. */
  function ChunkEnd(text: seq<byte>, cursor: nat, end: nat, maximum: nat): (q: nat)
    requires cursor < end
    ensures cursor <= q <= end && q <= cursor + maximum
  {
    var fit := BackOff(text, cursor, Reach(cursor, end, maximum));
    if fit >= end then fit else AtNewline(text, cursor, fit, maximum / 2)
  }

  function Chunks(text: seq<byte>, cursor: nat, end: nat, maximum: nat): seq<Range>
    decreases end - cursor
  {
    if cursor >= end then [] else
    var q := ChunkEnd(text, cursor, end, maximum);
    if q == cursor then [] else [Range(cursor, q)] + Chunks(text, q, end, maximum)
  }

  function ChunkRanges(text: seq<byte>, start: nat, end: nat, maximum: nat): seq<Range> {
    if end <= start || end - start <= maximum || maximum == 0 then [Range(start, end)]
    else Chunks(text, start, end, maximum)
  }

  method FindChunkEnd(text: seq<byte>, cursor: nat, end: nat, maximum: nat) returns (chunkEnd: nat)
    requires cursor < end
    ensures chunkEnd == ChunkEnd(text, cursor, end, maximum)
  {
    chunkEnd := if cursor + maximum < end then cursor + maximum else end;
    while chunkEnd > cursor && !Boundary(text, chunkEnd)
      invariant cursor <= chunkEnd
      invariant BackOff(text, cursor, chunkEnd) == BackOff(text, cursor, Reach(cursor, end, maximum))
    {
      chunkEnd := chunkEnd - 1;
    }
    if chunkEnd < end {
      var slice := Slice(text, cursor, chunkEnd);
      if slice.Some? {
        var newline := LastNewline(slice.value);
        if newline.Some? && newline.value > maximum / 2 {
          chunkEnd := cursor + newline.value + 1;
        }
      }
    }
  }

  lemma OneMoreChunk(text: seq<byte>, cursor: nat, end: nat, maximum: nat, ranges: seq<Range>)
    requires cursor < end
    ensures var q := ChunkEnd(text, cursor, end, maximum);
            if q == cursor then Chunks(text, cursor, end, maximum) == []
            else ranges + Chunks(text, cursor, end, maximum) == ranges + [Range(cursor, q)] + Chunks(text, q, end, maximum)
  {
    var q := ChunkEnd(text, cursor, end, maximum);
    if q > cursor {
      assert Chunks(text, cursor, end, maximum) == [Range(cursor, q)] + Chunks(text, q, end, maximum);
    }
  }

  method Chunk(text: seq<byte>, start: nat, end: nat, maximum: nat) returns (ranges: seq<Range>)
    ensures ranges == ChunkRanges(text, start, end, maximum)
  {
    if end <= start || end - start <= maximum || maximum == 0 {
      return [Range(start, end)];
    }
    ranges := [];
    var cursor := start;
    while cursor < end
      invariant ranges + Chunks(text, cursor, end, maximum) == Chunks(text, start, end, maximum)
      decreases end - cursor
    {
      var chunkEnd := FindChunkEnd(text, cursor, end, maximum);
      OneMoreChunk(text, cursor, end, maximum, ranges);
      if chunkEnd == cursor {
        break;
      }
      ranges := ranges + [Range(cursor, chunkEnd)];
      cursor := chunkEnd;
    }
    assert ranges + [] == ranges;
  }

  // ----- Tiling -----

  /** Non-empty ranges that follow each other from `a` to `b`. */
  predicate Tiles(ranges: seq<Range>, a: nat, b: nat) {
    if ranges == [] then a == b
    else ranges[0].start == a < ranges[0].end && Tiles(ranges[1..], ranges[0].end, b)
  }

  function Text(text: seq<byte>, ranges: seq<Range>): seq<byte> {
    if ranges == [] then [] else
    (if ranges[0].start <= ranges[0].end <= |text| then text[ranges[0].start..ranges[0].end] else []) + Text(text, ranges[1..])
  }

  lemma {:induction false} TilesConcatenate(text: seq<byte>, ranges: seq<Range>, a: nat, b: nat)
    requires Tiles(ranges, a, b) && b <= |text|
    ensures a <= b && Text(text, ranges) == text[a..b]
  {
    if ranges != [] {
      TilesConcatenate(text, ranges[1..], ranges[0].end, b);
    }
  }

  ghost predicate OnBoundaries(text: seq<byte>, ranges: seq<Range>) {
    forall r :: r in ranges ==> Boundary(text, r.start) && Boundary(text, r.end)
  }

  ghost predicate Bounded(ranges: seq<Range>, maximum: nat) {
    forall r :: r in ranges ==> r.end - r.start <= maximum
  }

  /** Some boundary lies within `maximum` bytes after `i`, not past `end`. */
  ghost predicate CharFits(text: seq<byte>, i: nat, end: nat, maximum: nat) {
    exists j :: i < j <= end && j <= i + maximum && Boundary(text, j)
  }

  /** No character of the range is wider than `maximum`. */
  ghost predicate CharsFit(text: seq<byte>, start: nat, end: nat, maximum: nat) {
    forall i :: start <= i < end && Boundary(text, i) ==> CharFits(text, i, end, maximum)
  }

  lemma FitFacts(text: seq<byte>, cursor: nat, end: nat, maximum: nat)
    requires cursor < end <= |text| && Boundary(text, cursor)
    ensures var fit := BackOff(text, cursor, Reach(cursor, end, maximum));
            Boundary(text, fit) && (fit > cursor <==> CharFits(text, cursor, end, maximum))
  {
    var reach := Reach(cursor, end, maximum);
    var fit := BackOff(text, cursor, reach);
    if CharFits(text, cursor, end, maximum) {
      var j :| cursor < j <= end && j <= cursor + maximum && Boundary(text, j);
      assert j <= reach;
    }
  }

  /** The end of a chunk moves back only to just after a newline. */
  lemma AtNewlineCases(text: seq<byte>, cursor: nat, fit: nat, half: nat)
    requires cursor <= fit <= |text|
    ensures var q := AtNewline(text, cursor, fit, half);
            q == fit || (cursor < q <= fit && text[q - 1] == NEWLINE)
  {
    var slice := text[cursor..fit];
    match LastNewline(slice)
    case None =>
    case Some(newline) => assert slice[newline] == text[cursor + newline];
  }

  lemma AtNewlineFacts(text: seq<byte>, cursor: nat, fit: nat, half: nat)
    requires cursor <= fit <= |text| && Boundary(text, cursor) && Boundary(text, fit) && Valid(text)
    ensures Boundary(text, AtNewline(text, cursor, fit, half))
    ensures AtNewline(text, cursor, fit, half) > cursor <==> fit > cursor
  {
    var q := AtNewline(text, cursor, fit, half);
    AtNewlineCases(text, cursor, fit, half);
    if q != fit { AfterNewline(text, q - 1); }
  }

  lemma ChunkEndFacts(text: seq<byte>, cursor: nat, end: nat, maximum: nat)
    requires cursor < end <= |text| && Boundary(text, cursor) && Boundary(text, end) && Valid(text)
    ensures var q := ChunkEnd(text, cursor, end, maximum);
            && Boundary(text, q)
            && (q > cursor <==> CharFits(text, cursor, end, maximum))
  {
    FitFacts(text, cursor, end, maximum);
    AtNewlineFacts(text, cursor, BackOff(text, cursor, Reach(cursor, end, maximum)), maximum / 2);
  }

  /** In valid text the byte after an ASCII newline starts a character. */
  lemma {:induction false} AfterNewline(text: seq<byte>, i: nat)
    requires Valid(text) && i < |text| && text[i] == NEWLINE
    ensures Boundary(text, i + 1)
    decreases |text|
  {
    var w := CharLength(text);
    var rest := text[w..];
    if i < w {
      assert i == 0 && w == 1;
      assert w < |text| ==> CharLength(rest) > 0 && rest[0] == text[w];
    } else {
      AfterNewline(rest, i - w);
      assert i + 1 < |text| ==> rest[i - w + 1] == text[i + 1];
    }
  }

  lemma {:induction false} ChunksAreSound(text: seq<byte>, cursor: nat, end: nat, maximum: nat)
    requires cursor <= end <= |text| && Boundary(text, cursor) && Boundary(text, end) && Valid(text)
    ensures OnBoundaries(text, Chunks(text, cursor, end, maximum)) && Bounded(Chunks(text, cursor, end, maximum), maximum)
    ensures CharsFit(text, cursor, end, maximum) ==> Tiles(Chunks(text, cursor, end, maximum), cursor, end)
    decreases end - cursor
  {
    if cursor < end {
      ChunkEndFacts(text, cursor, end, maximum);
      var q := ChunkEnd(text, cursor, end, maximum);
      if q > cursor {
        ChunksAreSound(text, q, end, maximum);
        assert Chunks(text, cursor, end, maximum)[1..] == Chunks(text, q, end, maximum);
      }
    }
  }

  /** Bounded ranges on boundaries cannot tile across a character wider than the bound. */
  lemma {:induction false} TilesFit(text: seq<byte>, ranges: seq<Range>, a: nat, b: nat, maximum: nat, i: nat)
    requires Tiles(ranges, a, b) && OnBoundaries(text, ranges) && Bounded(ranges, maximum) && a <= i < b
    ensures CharFits(text, i, b, maximum)
  {
    var first := ranges[0];
    TilesOrdered(ranges[1..], first.end, b);
    assert first in ranges;
    if i < first.end {
      assert i < first.end <= b && first.end <= i + maximum && Boundary(text, first.end);
    } else {
      TilesFit(text, ranges[1..], first.end, b, maximum, i);
    }
  }

  lemma {:induction false} TilesOrdered(ranges: seq<Range>, a: nat, b: nat)
    requires Tiles(ranges, a, b)
    ensures a <= b
  {
    if ranges != [] { TilesOrdered(ranges[1..], ranges[0].end, b); }
  }

  /**
    The chunks cover the range exactly when it fits in one, or the bound is 0, or
    no character in it is wider than the bound; otherwise the tail is dropped.
   */
  lemma CoversExactlyWhenCharactersFit(text: seq<byte>, start: nat, end: nat, maximum: nat)
    requires Valid(text) && start < end <= |text| && Boundary(text, start) && Boundary(text, end)
    ensures Tiles(ChunkRanges(text, start, end, maximum), start, end) <==>
            end - start <= maximum || maximum == 0 || CharsFit(text, start, end, maximum)
    ensures OnBoundaries(text, ChunkRanges(text, start, end, maximum))
    ensures maximum > 0 ==> Bounded(ChunkRanges(text, start, end, maximum), maximum)
  {
    var ranges := ChunkRanges(text, start, end, maximum);
    if end - start <= maximum || maximum == 0 {
      assert ranges[1..] == [];
    } else {
      ChunksAreSound(text, start, end, maximum);
      if Tiles(ranges, start, end) {
        forall i | start <= i < end && Boundary(text, i) ensures CharFits(text, i, end, maximum) {
          TilesFit(text, ranges, start, end, maximum, i);
        }
      }
    }
  }

  /** With a bound of at least 4 the chunks of any text concatenate to the range. */
  lemma CoversFromFour(text: seq<byte>, start: nat, end: nat, maximum: nat)
    requires Valid(text) && start < end <= |text| && Boundary(text, start) && Boundary(text, end) && maximum >= 4
    ensures Tiles(ChunkRanges(text, start, end, maximum), start, end)
    ensures Text(text, ChunkRanges(text, start, end, maximum)) == text[start..end]
  {
    forall i | start <= i < end && Boundary(text, i) ensures CharFits(text, i, end, maximum) {
      if i + 4 <= end {
        BoundaryNear(text, i + 4);
      }
      assert i + 4 > end ==> end <= i + maximum;
    }
    CoversExactlyWhenCharactersFit(text, start, end, maximum);
    TilesConcatenate(text, ChunkRanges(text, start, end, maximum), start, end);
  }

  // ----- Size of the chunks -----

  ghost predicate AllButLastLong(ranges: seq<Range>, least: nat) {
    forall k :: 0 <= k < |ranges| - 1 ==> ranges[k].end - ranges[k].start > least
  }

  lemma ChunkIsLong(text: seq<byte>, cursor: nat, end: nat, maximum: nat)
    requires Valid(text) && cursor < end <= |text| && Boundary(text, cursor) && Boundary(text, end) && maximum >= 7
    ensures var q := ChunkEnd(text, cursor, end, maximum);
            q < end ==> q - cursor > maximum / 2
  {
    var reach := Reach(cursor, end, maximum);
    BoundaryNear(text, reach);
    var j :| 0 <= j <= reach <= j + 3 && Boundary(text, j);
    assert j <= BackOff(text, cursor, reach) || j <= cursor;
  }

  lemma LongPrepend(ranges: seq<Range>, first: Range, rest: seq<Range>, least: nat)
    requires ranges == [first] + rest && AllButLastLong(rest, least)
    requires rest != [] ==> first.start <= first.end && first.end - first.start > least
    ensures AllButLastLong(ranges, least)
  {
    forall k | 0 <= k < |ranges| - 1 ensures ranges[k].end - ranges[k].start > least {
      if k > 0 { assert ranges[k] == rest[k - 1]; }
    }
  }

  lemma {:induction false} ChunksAreLong(text: seq<byte>, cursor: nat, end: nat, maximum: nat)
    requires Valid(text) && cursor <= end <= |text| && maximum >= 7 && Boundary(text, cursor) && Boundary(text, end)
    ensures AllButLastLong(Chunks(text, cursor, end, maximum), maximum / 2)
    decreases end - cursor
  {
    if cursor < end {
      ChunkIsLong(text, cursor, end, maximum);
      ChunkEndFacts(text, cursor, end, maximum);
      var q := ChunkEnd(text, cursor, end, maximum);
      if q > cursor {
        ChunksAreLong(text, q, end, maximum);
        LongPrepend(Chunks(text, cursor, end, maximum), Range(cursor, q), Chunks(text, q, end, maximum), maximum / 2);
      }
    }
  }

  lemma {:induction false} LongChunksAreFew(ranges: seq<Range>, a: nat, b: nat, least: nat)
    requires ranges != [] && Tiles(ranges, a, b) && AllButLastLong(ranges, least)
    ensures (|ranges| - 1) * (least + 1) < b - a
  {
    TilesOrdered(ranges[1..], ranges[0].end, b);
    if |ranges| > 1 {
      var rest := ranges[1..];
      forall k | 0 <= k < |rest| - 1 ensures rest[k].end - rest[k].start > least {
        assert rest[k] == ranges[k + 1];
      }
      LongChunksAreFew(rest, ranges[0].end, b, least);
      assert ranges[0].end - ranges[0].start > least;
      assert (|ranges| - 1) * (least + 1) == (|rest| - 1) * (least + 1) + (least + 1);
    }
  }

  lemma DivideBound(chunks: nat, length: nat, maximum: nat)
    requires maximum > 0 && chunks * (maximum / 2 + 1) <= length
    ensures chunks <= 2 * length / maximum
  {
    assert maximum <= 2 * (maximum / 2 + 1);
    assert chunks * maximum <= chunks * (2 * (maximum / 2 + 1));
    assert chunks * maximum <= 2 * length;
    QuotientAtLeast(chunks, 2 * length, maximum);
  }

  lemma ProductGrows(a: nat, b: nat, d: nat)
    requires a <= b
    ensures a * d <= b * d
  {
  }

  lemma QuotientAtLeast(k: nat, n: nat, d: nat)
    requires d > 0 && k * d <= n
    ensures k <= n / d
  {
    var q := n / d;
    assert n < (q + 1) * d;
    if q + 1 <= k {
      ProductGrows(q + 1, k, d);
    }
  }

  /** With a bound of at least 7 every chunk but the last is longer than half of it, so there are few. */
  lemma FewChunks(text: seq<byte>, start: nat, end: nat, maximum: nat)
    requires Valid(text) && start < end <= |text| && Boundary(text, start) && Boundary(text, end) && maximum >= 7
    ensures AllButLastLong(ChunkRanges(text, start, end, maximum), maximum / 2)
    ensures |ChunkRanges(text, start, end, maximum)| <= 2 * (end - start) / maximum + 1
  {
    var ranges := ChunkRanges(text, start, end, maximum);
    CoversFromFour(text, start, end, maximum);
    if end - start > maximum {
      ChunksAreLong(text, start, end, maximum);
    }
    LongChunksAreFew(ranges, start, end, maximum / 2);
    DivideBound(|ranges| - 1, end - start, maximum);
  }

  /** The chunk [cursor, q) ends after a newline, or holds none after its first `half` bytes. */
  ghost predicate EndsWell(text: seq<byte>, cursor: nat, q: nat, half: nat) {
    q <= |text| && ((q > cursor && text[q - 1] == 10) || forall i :: cursor + half < i < q ==> text[i] != 10)
  }

  lemma NewlineEnds(text: seq<byte>, cursor: nat, fit: nat, half: nat)
    requires cursor <= fit <= |text| && Boundary(text, cursor) && Boundary(text, fit)
    ensures EndsWell(text, cursor, AtNewline(text, cursor, fit, half), half)
  {
    var slice := text[cursor..fit];
    assert Slice(text, cursor, fit) == Some(slice);
    forall i | cursor <= i < fit ensures text[i] == slice[i - cursor] {}
  }

  /** A chunk that is not the last ends after a newline unless its upper half holds none. */
  lemma EndsAfterNewline(text: seq<byte>, cursor: nat, end: nat, maximum: nat)
    requires Valid(text) && cursor < end <= |text| && Boundary(text, cursor) && Boundary(text, end)
    ensures var q := ChunkEnd(text, cursor, end, maximum); q < end ==> EndsWell(text, cursor, q, maximum / 2)
  {
    FitFacts(text, cursor, end, maximum);
    var fit := BackOff(text, cursor, Reach(cursor, end, maximum));
    if fit < end {
      NewlineEnds(text, cursor, fit, maximum / 2);
    }
  }

  /** The last boundary within reach of a chunk. */
  ghost predicate LastFit(text: seq<byte>, cursor: nat, end: nat, maximum: nat, fit: nat) {
    && cursor < fit <= end && fit <= cursor + maximum && Boundary(text, fit)
    && forall j :: fit < j <= end && j <= cursor + maximum ==> !Boundary(text, j)
  }

  /** A newline in text[cursor..fit], past its first `half` bytes, and the last one there. */
  ghost predicate LastBreak(text: seq<byte>, cursor: nat, fit: nat, half: nat, at: nat) {
    cursor + half < at < fit <= |text| && text[at] == 10 && forall i :: at < i < fit ==> text[i] != 10
  }

  lemma BreakIs(text: seq<byte>, cursor: nat, fit: nat, half: nat, at: nat)
    requires cursor <= fit <= |text| && Boundary(text, cursor) && Boundary(text, fit) && LastBreak(text, cursor, fit, half, at)
    ensures AtNewline(text, cursor, fit, half) == at + 1
  {
    var slice := text[cursor..fit];
    assert Slice(text, cursor, fit) == Some(slice);
    assert slice[at - cursor] == NEWLINE;
    assert forall i :: 0 <= i < |slice| ==> slice[i] == text[cursor + i];
  }

  lemma NoBreakIs(text: seq<byte>, cursor: nat, fit: nat, half: nat)
    requires cursor <= fit <= |text| && Boundary(text, cursor) && Boundary(text, fit)
    requires forall i :: cursor + half < i < fit ==> text[i] != NEWLINE
    ensures AtNewline(text, cursor, fit, half) == fit
  {
    var slice := text[cursor..fit];
    assert forall i :: 0 <= i < |slice| ==> slice[i] == text[cursor + i];
  }

  lemma FitIsLast(text: seq<byte>, cursor: nat, end: nat, maximum: nat, fit: nat, q: nat)
    requires cursor < end && LastFit(text, cursor, end, maximum, fit) && cursor <= q <= Reach(cursor, end, maximum)
    requires q == cursor || Boundary(text, q)
    requires forall j :: q < j <= Reach(cursor, end, maximum) ==> !Boundary(text, j)
    ensures q == fit
  {
  }

  /**
    Where a chunk ends: at the last boundary within the bound, unless the text goes on
    and a newline comes after more than half the bound; then just after the last such.
   */
  lemma ChunkEndsExactly(text: seq<byte>, cursor: nat, end: nat, maximum: nat, fit: nat)
    requires Valid(text) && cursor < end <= |text| && Boundary(text, cursor) && Boundary(text, end)
    requires LastFit(text, cursor, end, maximum, fit)
    ensures forall at: nat :: fit < end && LastBreak(text, cursor, fit, maximum / 2, at) ==> ChunkEnd(text, cursor, end, maximum) == at + 1
    ensures fit == end || (forall i :: cursor + maximum / 2 < i < fit ==> text[i] != 10) ==>
              ChunkEnd(text, cursor, end, maximum) == fit
  {
    var reach := Reach(cursor, end, maximum);
    var q := BackOff(text, cursor, reach);
    FitIsLast(text, cursor, end, maximum, fit, q);
    forall at: nat | fit < end && LastBreak(text, cursor, fit, maximum / 2, at) ensures ChunkEnd(text, cursor, end, maximum) == at + 1 {
      BreakIs(text, cursor, fit, maximum / 2, at);
    }
    if fit < end && forall i :: cursor + maximum / 2 < i < fit ==> text[i] != NEWLINE {
      NoBreakIs(text, cursor, fit, maximum / 2);
    }
  }

  /** Every range of a text that does not fit whole starts where the one before ended, and is one chunk. */
  lemma {:induction false} RangesAreChunks(text: seq<byte>, cursor: nat, end: nat, maximum: nat, k: nat)
    requires k < |Chunks(text, cursor, end, maximum)|
    ensures var ranges := Chunks(text, cursor, end, maximum);
            && ranges[k].start == (if k == 0 then cursor else ranges[k - 1].end) < end
            && ranges[k].end == ChunkEnd(text, ranges[k].start, end, maximum)
    decreases end - cursor
  {
    var q := ChunkEnd(text, cursor, end, maximum);
    if k > 0 { RangesAreChunks(text, q, end, maximum, k - 1); }
  }
}
