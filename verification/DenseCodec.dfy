/**
  The `CCEVEC1` artifact format (crates/cce-engine/src/dense.rs).  Strings are
  byte sequences, floats their 32-bit patterns.  `Parse*` and `Encoded*` are the
  specification; the methods are the reader and writer of the source.
 */
module DenseCodec {
  import opened Common
  import opened Wrappers
  import opened Utf8

  const U64: nat := 0x1_0000_0000_0000_0000

  type word = x: int | 0 <= x < 0x1_0000_0000

  /** "CCEVEC1\0" */
  const MAGIC: seq<byte> := [0x43, 0x43, 0x45, 0x56, 0x45, 0x43, 0x31, 0x00]
  const FORMAT_VERSION: nat := 1

  datatype Index = Index(profile: seq<byte>, dimensions: nat, ids: seq<seq<byte>>, vectors: seq<word>)

  datatype Error =
    | DimensionExceedsFormat | CountExceedsFormat | ProfileTooLong | IdTooLong
    | InvalidMagic | UnsupportedFormat(found: nat) | ZeroDimensionalNonEmpty | AllocationOverflow
    | Truncated | InvalidProfile | InvalidId | TrailingBytes

  // ----- Little-endian integers -----

  function Pow256(n: nat): nat {
    if n == 0 then 1 else 256 * Pow256(n - 1)
  }

  function Le(n: nat, width: nat): (bytes: seq<byte>)
    ensures |bytes| == width
  {
    if width == 0 then [] else [n % 256] + Le(n / 256, width - 1)
  }

  function FromLe(bytes: seq<byte>): nat {
    if bytes == [] then 0 else bytes[0] + 256 * FromLe(bytes[1..])
  }

  lemma {:induction false} FromLeOfLe(n: nat, width: nat)
    requires n < Pow256(width)
    ensures FromLe(Le(n, width)) == n
  {
    if width > 0 {
      FromLeOfLe(n / 256, width - 1);
      assert Le(n, width)[1..] == Le(n / 256, width - 1);
    }
  }

  lemma LowByte(low: nat, high: nat)
    requires low < 256
    ensures (low + 256 * high) % 256 == low && (low + 256 * high) / 256 == high
  {
  }

  lemma {:induction false} LeOfFromLe(bytes: seq<byte>)
    ensures FromLe(bytes) < Pow256(|bytes|)
    ensures Le(FromLe(bytes), |bytes|) == bytes
  {
    if bytes != [] {
      var rest := bytes[1..];
      LeOfFromLe(rest);
      LowByte(bytes[0], FromLe(rest));
      assert Le(FromLe(bytes), |bytes|) == [bytes[0]] + Le(FromLe(rest), |rest|);
      assert bytes == [bytes[0]] + rest;
    }
  }

  lemma Widths()
    ensures Pow256(4) == U32 && Pow256(8) == U64
  {
    assert Pow256(2) == 65536;
    assert Pow256(4) == 65536 * 65536;
    assert Pow256(6) == 65536 * Pow256(4);
    assert Pow256(8) == 65536 * Pow256(6);
  }

  // ----- Specification of the reader -----

  datatype Read<+T> = Read(value: T, rest: seq<byte>)

  function ParseTake(b: seq<byte>, n: nat): (r: Result<Read<seq<byte>>, Error>)
    ensures r.Ok? ==> |r.value.value| == n && b == r.value.value + r.value.rest
  {
    if n <= |b| then Ok(Read(b[..n], b[n..])) else Err(Truncated)
  }

  function ParseNat(b: seq<byte>, width: nat): Result<Read<nat>, Error> {
    var Read(bytes, rest) :- ParseTake(b, width);
    Ok(Read(FromLe(bytes), rest))
  }

  /** A length-prefixed string that must be valid UTF-8. */
  function ParseText(b: seq<byte>, invalid: Error): Result<Read<seq<byte>>, Error> {
    var Read(length, b1) :- ParseNat(b, 4);
    var Read(text, b2) :- ParseTake(b1, length);
    if Valid(text) then Ok(Read(text, b2)) else Err(invalid)
  }

  function ParseFloats(b: seq<byte>, count: nat): Result<Read<seq<word>>, Error> {
    if count == 0 then Ok(Read([], b)) else
    var Read(bytes, b1) :- ParseTake(b, 4);
    Widths();
    LeOfFromLe(bytes);
    var Read(more, b2) :- ParseFloats(b1, count - 1);
    Ok(Read([FromLe(bytes)] + more, b2))
  }

  datatype Rows = Rows(ids: seq<seq<byte>>, vectors: seq<word>)

  function ParseRows(b: seq<byte>, count: nat, dimensions: nat): Result<Read<Rows>, Error>
    decreases count
  {
    if count == 0 then Ok(Read(Rows([], []), b)) else
    var Read(id, b1) :- ParseText(b, InvalidId);
    var Read(vector, b2) :- ParseFloats(b1, dimensions);
    var Read(more, b3) :- ParseRows(b2, count - 1, dimensions);
    Ok(Read(Rows([id] + more.ids, vector + more.vectors), b3))
  }

  datatype Header = Header(dimensions: nat, count: nat)

  function ParseHeader(b: seq<byte>): Result<Read<Header>, Error> {
    var Read(magic, b1) :- ParseTake(b, 8);
    if magic != MAGIC then Err(InvalidMagic) else
    var Read(version, b2) :- ParseNat(b1, 4);
    if version != FORMAT_VERSION then Err(UnsupportedFormat(version)) else
    var Read(dimensions, b3) :- ParseNat(b2, 4);
    var Read(count, b4) :- ParseNat(b3, 8);
    if dimensions == 0 && count != 0 then Err(ZeroDimensionalNonEmpty) else
    Ok(Read(Header(dimensions, count), b4))
  }

  function ParseIndex(b: seq<byte>): Result<Read<Index>, Error> {
    var Read(header, b1) :- ParseHeader(b);
    var Read(profile, b2) :- ParseText(b1, InvalidProfile);
    if header.count * header.dimensions >= U64 then Err(AllocationOverflow) else
    var Read(rows, b3) :- ParseRows(b2, header.count, header.dimensions);
    Ok(Read(Index(profile, header.dimensions, rows.ids, rows.vectors), b3))
  }

  function Decoded(b: seq<byte>): Result<Index, Error> {
    var Read(index, rest) :- ParseIndex(b);
    if rest == [] then Ok(index) else Err(TrailingBytes)
  }

  // ----- Specification of the writer -----

  function EncodedText(text: seq<byte>, tooLong: Error): Result<seq<byte>, Error> {
    if |text| < U32 then Ok(Le(|text|, 4) + text) else Err(tooLong)
  }

  function EncodedFloats(vector: seq<word>): seq<byte> {
    if vector == [] then [] else Le(vector[0], 4) + EncodedFloats(vector[1..])
  }

  /** Ids are zipped with whole chunks of `dimensions` floats. */
  function EncodedRows(ids: seq<seq<byte>>, vectors: seq<word>, dimensions: nat): Result<seq<byte>, Error>
    requires dimensions > 0
  {
    if ids == [] || |vectors| < dimensions then Ok([]) else
    var id :- EncodedText(ids[0], IdTooLong);
    var more :- EncodedRows(ids[1..], vectors[dimensions..], dimensions);
    Ok(id + EncodedFloats(vectors[..dimensions]) + more)
  }

  function EncodedHeader(dimensions: nat, count: nat): seq<byte> {
    MAGIC + (Le(FORMAT_VERSION, 4) + (Le(dimensions, 4) + Le(count, 8)))
  }

  /** The source panics on dimension 0: `chunks_exact(0)`. */
  function Encoded(x: Index): Result<seq<byte>, Error>
    requires x.dimensions > 0
  {
    if x.dimensions >= U32 then Err(DimensionExceedsFormat)
    else if |x.ids| >= U64 then Err(CountExceedsFormat)
    else
      var profile :- EncodedText(x.profile, ProfileTooLong);
      var rows :- EncodedRows(x.ids, x.vectors, x.dimensions);
      Ok(EncodedHeader(x.dimensions, |x.ids|) + (profile + rows))
  }

  // ----- Round trips -----

  predicate Text(s: seq<byte>) {
    |s| < U32 && Valid(s)
  }

  predicate WellFormed(x: Index) {
    && 0 < x.dimensions < U32
    && |x.ids| < U64
    && |x.vectors| == |x.ids| * x.dimensions < U64
    && Text(x.profile)
    && forall id :: id in x.ids ==> Text(id)
  }

  lemma TakePrefix(a: seq<byte>, rest: seq<byte>)
    ensures ParseTake(a + rest, |a|) == Ok(Read(a, rest))
  {
  }

  lemma NatRoundTrip(n: nat, width: nat, rest: seq<byte>)
    requires n < Pow256(width)
    ensures ParseNat(Le(n, width) + rest, width) == Ok(Read(n, rest))
  {
    TakePrefix(Le(n, width), rest);
    FromLeOfLe(n, width);
  }

  lemma TextRoundTrip(text: seq<byte>, error: Error, invalid: Error, rest: seq<byte>)
    requires Text(text)
    ensures EncodedText(text, error).Ok?
    ensures ParseText(EncodedText(text, error).value + rest, invalid) == Ok(Read(text, rest))
  {
    Widths();
    assert Le(|text|, 4) + text + rest == Le(|text|, 4) + (text + rest);
    NatRoundTrip(|text|, 4, text + rest);
    TakePrefix(text, rest);
  }

  lemma {:induction false} FloatsRoundTrip(vector: seq<word>, rest: seq<byte>)
    ensures ParseFloats(EncodedFloats(vector) + rest, |vector|) == Ok(Read(vector, rest))
  {
    if vector == [] {
      assert [] + rest == rest;
    } else {
      Widths();
      var tail := EncodedFloats(vector[1..]);
      assert EncodedFloats(vector) + rest == Le(vector[0], 4) + (tail + rest);
      TakePrefix(Le(vector[0], 4), tail + rest);
      FromLeOfLe(vector[0], 4);
      FloatsRoundTrip(vector[1..], rest);
      assert vector == [vector[0]] + vector[1..];
    }
  }

  /** A row that parses in front of rows that parse. */
  lemma RowParsed(b: seq<byte>, id: Read<seq<byte>>, vector: Read<seq<word>>, more: Read<Rows>, count: nat, dimensions: nat)
    requires count > 0 && ParseText(b, InvalidId) == Ok(id) && ParseFloats(id.rest, dimensions) == Ok(vector)
    requires ParseRows(vector.rest, count - 1, dimensions) == Ok(more)
    ensures ParseRows(b, count, dimensions) == Ok(Read(Rows([id.value] + more.value.ids, vector.value + more.value.vectors), more.rest))
  {
  }

  /** Rows that parse, taken apart at the first. */
  lemma FirstRowParsed(b: seq<byte>, count: nat, dimensions: nat) returns (id: Read<seq<byte>>, vector: Read<seq<word>>, more: Read<Rows>)
    requires count > 0 && ParseRows(b, count, dimensions).Ok?
    ensures ParseText(b, InvalidId) == Ok(id) && ParseFloats(id.rest, dimensions) == Ok(vector)
    ensures ParseRows(vector.rest, count - 1, dimensions) == Ok(more)
    ensures ParseRows(b, count, dimensions) == Ok(Read(Rows([id.value] + more.value.ids, vector.value + more.value.vectors), more.rest))
  {
    id := ParseText(b, InvalidId).value;
    vector := ParseFloats(id.rest, dimensions).value;
    more := ParseRows(vector.rest, count - 1, dimensions).value;
  }

  /** One row in front of rows that parse. */
  lemma RowRoundTrip(b: seq<byte>, id: seq<byte>, vector: seq<word>, tail: seq<byte>, ids: seq<seq<byte>>, vectors: seq<word>, dimensions: nat, rest: seq<byte>)
    requires Text(id) && |vector| == dimensions
    requires ParseRows(tail, |ids|, dimensions) == Ok(Read(Rows(ids, vectors), rest))
    requires EncodedText(id, IdTooLong).Ok? && b == EncodedText(id, IdTooLong).value + (EncodedFloats(vector) + tail)
    ensures ParseRows(b, |ids| + 1, dimensions) == Ok(Read(Rows([id] + ids, vector + vectors), rest))
  {
    TextRoundTrip(id, IdTooLong, InvalidId, EncodedFloats(vector) + tail);
    FloatsRoundTrip(vector, tail);
    RowParsed(b, Read(id, EncodedFloats(vector) + tail), Read(vector, tail), Read(Rows(ids, vectors), rest), |ids| + 1, dimensions);
  }

  /** `vectors` holds exactly `count` chunks. */
  predicate Aligned(count: nat, vectors: seq<word>, dimensions: nat) {
    if count == 0 then vectors == []
    else |vectors| >= dimensions && Aligned(count - 1, vectors[dimensions..], dimensions)
  }

  lemma {:induction false} AlignedIsProduct(count: nat, vectors: seq<word>, dimensions: nat)
    ensures Aligned(count, vectors, dimensions) <==> |vectors| == count * dimensions
  {
    if count > 0 {
      assert count * dimensions == (count - 1) * dimensions + dimensions;
      if |vectors| >= dimensions {
        AlignedIsProduct(count - 1, vectors[dimensions..], dimensions);
      } else {
        assert (count - 1) * dimensions >= 0;
      }
    }
  }

  lemma Regroup(a: seq<byte>, b: seq<byte>, c: seq<byte>, d: seq<byte>)
    ensures a + b + c + d == a + (b + (c + d))
  {
  }

  /** The encoding of a first row and the rest, taken apart. */
  lemma FirstRow(ids: seq<seq<byte>>, vectors: seq<word>, dimensions: nat) returns (id: seq<byte>, floats: seq<byte>, more: seq<byte>)
    requires dimensions > 0 && ids != [] && |vectors| >= dimensions && |ids[0]| < U32
    requires EncodedRows(ids[1..], vectors[dimensions..], dimensions).Ok?
    ensures id == EncodedText(ids[0], IdTooLong).value && floats == EncodedFloats(vectors[..dimensions])
    ensures more == EncodedRows(ids[1..], vectors[dimensions..], dimensions).value
    ensures EncodedRows(ids, vectors, dimensions) == Ok(id + floats + more)
  {
    id, floats := EncodedText(ids[0], IdTooLong).value, EncodedFloats(vectors[..dimensions]);
    more := EncodedRows(ids[1..], vectors[dimensions..], dimensions).value;
  }

  lemma {:induction false} RowsRoundTrip(ids: seq<seq<byte>>, vectors: seq<word>, dimensions: nat, rest: seq<byte>)
    requires dimensions > 0 && Aligned(|ids|, vectors, dimensions) && forall id :: id in ids ==> Text(id)
    ensures EncodedRows(ids, vectors, dimensions).Ok?
    ensures ParseRows(EncodedRows(ids, vectors, dimensions).value + rest, |ids|, dimensions) == Ok(Read(Rows(ids, vectors), rest))
    decreases |ids|
  {
    if ids == [] {
      assert [] + rest == rest;
    } else {
      RowsRoundTrip(ids[1..], vectors[dimensions..], dimensions, rest);
      RowInFront(ids, vectors, dimensions, rest);
    }
  }

  lemma RowInFront(ids: seq<seq<byte>>, vectors: seq<word>, dimensions: nat, rest: seq<byte>)
    requires dimensions > 0 && ids != [] && |vectors| >= dimensions && Text(ids[0])
    requires var more := EncodedRows(ids[1..], vectors[dimensions..], dimensions);
             more.Ok? && ParseRows(more.value + rest, |ids| - 1, dimensions) == Ok(Read(Rows(ids[1..], vectors[dimensions..]), rest))
    ensures EncodedRows(ids, vectors, dimensions).Ok?
    ensures ParseRows(EncodedRows(ids, vectors, dimensions).value + rest, |ids|, dimensions) == Ok(Read(Rows(ids, vectors), rest))
  {
    var vector, others := vectors[..dimensions], vectors[dimensions..];
    var id, floats, more := FirstRow(ids, vectors, dimensions);
    Regroup(id, floats, more, rest);
    RowRoundTrip(id + floats + more + rest, ids[0], vector, more + rest, ids[1..], others, dimensions, rest);
    assert vector + others == vectors && [ids[0]] + ids[1..] == ids;
  }

  lemma HeaderLayout(dimensions: nat, count: nat, rest: seq<byte>)
    ensures EncodedHeader(dimensions, count) + rest ==
            MAGIC + (Le(FORMAT_VERSION, 4) + (Le(dimensions, 4) + (Le(count, 8) + rest)))
  {
  }

  lemma HeaderRoundTrip(dimensions: nat, count: nat, rest: seq<byte>)
    requires 0 < dimensions < U32 && count < U64
    ensures ParseHeader(EncodedHeader(dimensions, count) + rest) == Ok(Read(Header(dimensions, count), rest))
  {
    Widths();
    var d, c := Le(dimensions, 4), Le(count, 8);
    var v := Le(FORMAT_VERSION, 4);
    HeaderLayout(dimensions, count, rest);
    TakePrefix(MAGIC, v + (d + (c + rest)));
    NatRoundTrip(FORMAT_VERSION, 4, d + (c + rest));
    NatRoundTrip(dimensions, 4, c + rest);
    NatRoundTrip(count, 8, rest);
  }

  /** Decoding what was encoded gives the index back. */
  lemma DecodeOfEncode(x: Index)
    requires WellFormed(x)
    ensures Encoded(x).Ok? && Decoded(Encoded(x).value) == Ok(x)
  {
    TextRoundTrip(x.profile, ProfileTooLong, InvalidProfile, []);
    AlignedIsProduct(|x.ids|, x.vectors, x.dimensions);
    RowsRoundTrip(x.ids, x.vectors, x.dimensions, []);
    var header := EncodedHeader(x.dimensions, |x.ids|);
    var profile := EncodedText(x.profile, ProfileTooLong).value;
    var rows := EncodedRows(x.ids, x.vectors, x.dimensions).value;
    HeaderRoundTrip(x.dimensions, |x.ids|, profile + rows);
    TextRoundTrip(x.profile, ProfileTooLong, InvalidProfile, rows);
    assert rows + [] == rows;
  }

  lemma NatCanonical(b: seq<byte>, width: nat)
    requires ParseNat(b, width).Ok?
    ensures var r := ParseNat(b, width).value;
            r.value < Pow256(width) && b == Le(r.value, width) + r.rest
  {
    LeOfFromLe(b[..width]);
  }

  lemma TextCanonical(b: seq<byte>, invalid: Error, error: Error)
    requires ParseText(b, invalid).Ok?
    ensures var r := ParseText(b, invalid).value;
            Text(r.value) && EncodedText(r.value, error).Ok? && b == EncodedText(r.value, error).value + r.rest
  {
    Widths();
    NatCanonical(b, 4);
  }

  lemma FirstFloat(b: seq<byte>, count: nat)
    requires count > 0 && ParseFloats(b, count).Ok?
    ensures |b| >= 4 && ParseFloats(b[4..], count - 1).Ok?
    ensures var r, more := ParseFloats(b, count).value, ParseFloats(b[4..], count - 1).value;
            r.rest == more.rest && r.value == [FromLe(b[..4])] + more.value
  {
  }

  lemma PutFloat(bytes: seq<byte>, more: seq<word>)
    requires |bytes| == 4
    ensures FromLe(bytes) < U32 && EncodedFloats([FromLe(bytes)] + more) == bytes + EncodedFloats(more)
  {
    Widths();
    LeOfFromLe(bytes);
    assert ([FromLe(bytes)] + more)[1..] == more;
  }

  lemma {:induction false} FloatsCanonical(b: seq<byte>, count: nat)
    requires ParseFloats(b, count).Ok?
    ensures var r := ParseFloats(b, count).value;
            |r.value| == count && b == EncodedFloats(r.value) + r.rest
  {
    if count > 0 {
      FirstFloat(b, count);
      FloatsCanonical(b[4..], count - 1);
      var more := ParseFloats(b[4..], count - 1).value;
      PutFloat(b[..4], more.value);
      assert b == b[..4] + (EncodedFloats(more.value) + more.rest);
    }
  }

  ghost predicate RowsOf(b: seq<byte>, rows: Rows, rest: seq<byte>, count: nat, dimensions: nat)
    requires dimensions > 0
  {
    && |rows.ids| == count && Aligned(count, rows.vectors, dimensions)
    && (forall id :: id in rows.ids ==> Text(id))
    && EncodedRows(rows.ids, rows.vectors, dimensions).Ok?
    && b == EncodedRows(rows.ids, rows.vectors, dimensions).value + rest
  }

  lemma RowCanonical(b: seq<byte>, id: seq<byte>, vector: seq<word>, tail: seq<byte>, more: Rows, rest: seq<byte>, count: nat, dimensions: nat)
    requires dimensions > 0 && Text(id) && |vector| == dimensions && RowsOf(tail, more, rest, count, dimensions)
    requires b == EncodedText(id, IdTooLong).value + (EncodedFloats(vector) + tail)
    ensures RowsOf(b, Rows([id] + more.ids, vector + more.vectors), rest, count + 1, dimensions)
  {
    var ids, vectors := [id] + more.ids, vector + more.vectors;
    assert ids[1..] == more.ids && vectors[..dimensions] == vector && vectors[dimensions..] == more.vectors;
    var text, floats, encoded := FirstRow(ids, vectors, dimensions);
    Regroup(text, floats, encoded, rest);
  }

  lemma {:induction false} RowsCanonical(b: seq<byte>, count: nat, dimensions: nat)
    requires dimensions > 0 && ParseRows(b, count, dimensions).Ok?
    ensures RowsOf(b, ParseRows(b, count, dimensions).value.value, ParseRows(b, count, dimensions).value.rest, count, dimensions)
    decreases count
  {
    if count > 0 {
      var Read(id, b1) := ParseText(b, InvalidId).value;
      var Read(vector, b2) := ParseFloats(b1, dimensions).value;
      var Read(more, b3) := ParseRows(b2, count - 1, dimensions).value;
      TextCanonical(b, InvalidId, IdTooLong);
      FloatsCanonical(b1, dimensions);
      RowsCanonical(b2, count - 1, dimensions);
      RowCanonical(b, id, vector, b2, more, b3, count - 1, dimensions);
    }
  }

  lemma HeaderCanonical(b: seq<byte>)
    requires ParseHeader(b).Ok?
    ensures var r := ParseHeader(b).value;
            && r.value.dimensions < U32 && r.value.count < U64
            && (r.value.dimensions == 0 ==> r.value.count == 0)
            && b == EncodedHeader(r.value.dimensions, r.value.count) + r.rest
  {
    Widths();
    var b1 := b[8..];
    NatCanonical(b1, 4);
    var b2 := ParseNat(b1, 4).value.rest;
    NatCanonical(b2, 4);
    var b3 := ParseNat(b2, 4).value.rest;
    NatCanonical(b3, 8);
    var r := ParseHeader(b).value;
    HeaderLayout(r.value.dimensions, r.value.count, r.rest);
    assert b == MAGIC + b1;
  }

  /** Every accepted byte string with a positive dimension is the encoding of what it decodes to. */
  lemma EncodeOfDecode(b: seq<byte>)
    requires Decoded(b).Ok? && Decoded(b).value.dimensions > 0
    ensures WellFormed(Decoded(b).value)
    ensures Encoded(Decoded(b).value) == Ok(b)
  {
    var x := Decoded(b).value;
    HeaderCanonical(b);
    var Read(header, b1) := ParseHeader(b).value;
    TextCanonical(b1, InvalidProfile, ProfileTooLong);
    var Read(profile, b2) := ParseText(b1, InvalidProfile).value;
    RowsCanonical(b2, header.count, header.dimensions);
    AlignedIsProduct(header.count, x.vectors, x.dimensions);
    var rows := EncodedRows(x.ids, x.vectors, x.dimensions).value;
    assert rows + [] == rows;
    assert b == EncodedHeader(x.dimensions, |x.ids|) + (EncodedText(profile, ProfileTooLong).value + rows);
  }

  /** An index of positive dimension comes back from its encoding exactly when it is well-formed. */
  lemma RoundTripExactly(x: Index)
    requires x.dimensions > 0
    ensures Encoded(x).Ok? && Decoded(Encoded(x).value) == Ok(x) <==> WellFormed(x)
  {
    if WellFormed(x) { DecodeOfEncode(x); }
    if Encoded(x).Ok? && Decoded(Encoded(x).value) == Ok(x) { EncodeOfDecode(Encoded(x).value); }
  }

  /** An accepted zero-dimensional artifact is empty: the one shape `encode` cannot produce. */
  lemma ZeroDimensionIsEmpty(b: seq<byte>)
    requires Decoded(b).Ok? && Decoded(b).value.dimensions == 0
    ensures Decoded(b).value.ids == [] && Decoded(b).value.vectors == []
  {
    HeaderCanonical(b);
  }

  // ----- Prefix freedom -----

  lemma TakeExtends(b: seq<byte>, n: nat, e: seq<byte>)
    requires ParseTake(b, n).Ok?
    ensures ParseTake(b + e, n) == Ok(Read(ParseTake(b, n).value.value, ParseTake(b, n).value.rest + e))
  {
    assert (b + e)[..n] == b[..n];
    assert (b + e)[n..] == b[n..] + e;
  }

  lemma TextExtends(b: seq<byte>, invalid: Error, e: seq<byte>)
    requires ParseText(b, invalid).Ok?
    ensures ParseText(b + e, invalid) == Ok(Read(ParseText(b, invalid).value.value, ParseText(b, invalid).value.rest + e))
  {
    TakeExtends(b, 4, e);
    var Read(length, b1) := ParseNat(b, 4).value;
    TakeExtends(b1, length, e);
  }

  lemma {:induction false} FloatsExtends(b: seq<byte>, count: nat, e: seq<byte>)
    requires ParseFloats(b, count).Ok?
    ensures ParseFloats(b + e, count) == Ok(Read(ParseFloats(b, count).value.value, ParseFloats(b, count).value.rest + e))
  {
    if count > 0 {
      TakeExtends(b, 4, e);
      FloatsExtends(b[4..], count - 1, e);
    }
  }

  lemma RowExtends(b: seq<byte>, id: Read<seq<byte>>, vector: Read<seq<word>>, more: Read<Rows>, count: nat, dimensions: nat, e: seq<byte>)
    requires count > 0 && ParseText(b, InvalidId) == Ok(id) && ParseFloats(id.rest, dimensions) == Ok(vector)
    requires ParseRows(vector.rest + e, count - 1, dimensions) == Ok(Read(more.value, more.rest + e))
    ensures ParseRows(b + e, count, dimensions) ==
            Ok(Read(Rows([id.value] + more.value.ids, vector.value + more.value.vectors), more.rest + e))
  {
    TextExtends(b, InvalidId, e);
    FloatsExtends(id.rest, dimensions, e);
    RowParsed(b + e, Read(id.value, id.rest + e), Read(vector.value, vector.rest + e), Read(more.value, more.rest + e), count, dimensions);
  }

  lemma {:induction false} RowsExtends(b: seq<byte>, count: nat, dimensions: nat, r: Read<Rows>, e: seq<byte>)
    requires ParseRows(b, count, dimensions) == Ok(r)
    ensures ParseRows(b + e, count, dimensions) == Ok(Read(r.value, r.rest + e))
    decreases count
  {
    if count > 0 {
      var id, vector, more := FirstRowParsed(b, count, dimensions);
      RowsExtends(vector.rest, count - 1, dimensions, more, e);
      RowExtends(b, id, vector, more, count, dimensions, e);
    }
  }

  lemma HeaderExtends(b: seq<byte>, e: seq<byte>)
    requires ParseHeader(b).Ok?
    ensures ParseHeader(b + e) == Ok(Read(ParseHeader(b).value.value, ParseHeader(b).value.rest + e))
  {
    TakeExtends(b, 8, e);
    var b1 := b[8..];
    TakeExtends(b1, 4, e);
    var b2 := b1[4..];
    TakeExtends(b2, 4, e);
    TakeExtends(b2[4..], 8, e);
  }

  /** No proper extension, hence no proper prefix, of an accepted artifact is accepted. */
  lemma NoProperExtension(b: seq<byte>, e: seq<byte>)
    requires Decoded(b).Ok? && Decoded(b + e).Ok?
    ensures e == []
  {
    HeaderExtends(b, e);
    var Read(header, b1) := ParseHeader(b).value;
    TextExtends(b1, InvalidProfile, e);
    var Read(profile, b2) := ParseText(b1, InvalidProfile).value;
    RowsExtends(b2, header.count, header.dimensions, ParseRows(b2, header.count, header.dimensions).value, e);
    assert ParseIndex(b + e).value.rest == ParseIndex(b).value.rest + e;
  }
}
