/** The artifact reader and writer (crates/cce-engine/src/dense.rs), proved against the format. */
module DenseReader {
  import opened Common
  import opened Wrappers
  import opened Utf8
  import opened DenseCodec

  class SliceReader {
    var remaining: seq<byte>

    constructor (bytes: seq<byte>)
      ensures remaining == bytes
    {
      remaining := bytes;
    }

    /** Either the whole slice is taken or nothing is. */
    method Take(length: nat) returns (r: Result<seq<byte>, Error>)
      modifies this
      ensures match ParseTake(old(remaining), length)
              case Ok(read) => r == Ok(read.value) && remaining == read.rest
              case Err(error) => r == Err(error) && remaining == old(remaining)
    {
      if length > |remaining| {
        return Err(Truncated);
      }
      var value := remaining[..length];
      remaining := remaining[length..];
      return Ok(value);
    }

    method U32() returns (r: Result<nat, Error>)
      modifies this
      ensures match ParseNat(old(remaining), 4)
              case Ok(read) => r == Ok(read.value) && remaining == read.rest
              case Err(error) => r == Err(error) && remaining == old(remaining)
    {
      var bytes :- Take(4);
      return Ok(FromLe(bytes));
    }

    method U64() returns (r: Result<nat, Error>)
      modifies this
      ensures match ParseNat(old(remaining), 8)
              case Ok(read) => r == Ok(read.value) && remaining == read.rest
              case Err(error) => r == Err(error) && remaining == old(remaining)
    {
      var bytes :- Take(8);
      return Ok(FromLe(bytes));
    }
  }

  // ----- Reading -----

  method ReadText(reader: SliceReader, invalid: Error) returns (r: Result<seq<byte>, Error>)
    modifies reader
    ensures match ParseText(old(reader.remaining), invalid)
            case Ok(read) => r == Ok(read.value) && reader.remaining == read.rest
            case Err(error) => r == Err(error)
  {
    var length :- reader.U32();
    var text :- reader.Take(length);
    if !Valid(text) {
      return Err(invalid);
    }
    return Ok(text);
  }

  /** What a parse of the rest becomes once `before` has been read in front of it. */
  function ResumeFloats(before: seq<word>, after: Result<Read<seq<word>>, Error>): Result<Read<seq<word>>, Error> {
    match after
    case Ok(read) => Ok(Read(before + read.value, read.rest))
    case Err(error) => Err(error)
  }

  function ResumeRows(before: Rows, after: Result<Read<Rows>, Error>): Result<Read<Rows>, Error> {
    match after
    case Ok(read) => Ok(Read(Rows(before.ids + read.value.ids, before.vectors + read.value.vectors), read.rest))
    case Err(error) => Err(error)
  }

  lemma FloatStep(before: seq<word>, b: seq<byte>, count: nat)
    requires count > 0 && ParseTake(b, 4).Ok?
    ensures var read := ParseTake(b, 4).value;
            FromLe(read.value) < 0x1_0000_0000 &&
            ResumeFloats(before, ParseFloats(b, count)) ==
            ResumeFloats(before + [FromLe(read.value)], ParseFloats(read.rest, count - 1))
  {
    Widths();
    var read := ParseTake(b, 4).value;
    LeOfFromLe(read.value);
    var after := ParseFloats(read.rest, count - 1);
    if after.Ok? {
      assert before + ([FromLe(read.value)] + after.value.value) == before + [FromLe(read.value)] + after.value.value;
    }
  }

  method ReadFloats(reader: SliceReader, count: nat) returns (r: Result<seq<word>, Error>)
    modifies reader
    ensures match ParseFloats(old(reader.remaining), count)
            case Ok(read) => r == Ok(read.value) && reader.remaining == read.rest
            case Err(error) => r == Err(error)
  {
    var floats: seq<word> := [];
    ghost var whole := ParseFloats(reader.remaining, count);
    assert whole == ResumeFloats([], whole) by {
      if whole.Ok? { assert [] + whole.value.value == whole.value.value; }
    }
    for i := 0 to count
      invariant whole == ResumeFloats(floats, ParseFloats(reader.remaining, count - i))
    {
      ghost var before := reader.remaining;
      var bytes :- reader.Take(4);
      FloatStep(floats, before, count - i);
      floats := floats + [FromLe(bytes)];
    }
    assert floats + [] == floats;
    return Ok(floats);
  }

  lemma RowStep(before: Rows, b: seq<byte>, count: nat, dimensions: nat)
    requires count > 0 && ParseText(b, InvalidId).Ok?
    requires ParseFloats(ParseText(b, InvalidId).value.rest, dimensions).Ok?
    ensures var id := ParseText(b, InvalidId).value;
            var vector := ParseFloats(id.rest, dimensions).value;
            ResumeRows(before, ParseRows(b, count, dimensions)) ==
            ResumeRows(Rows(before.ids + [id.value], before.vectors + vector.value), ParseRows(vector.rest, count - 1, dimensions))
  {
    var id := ParseText(b, InvalidId).value;
    var vector := ParseFloats(id.rest, dimensions).value;
    var after := ParseRows(vector.rest, count - 1, dimensions);
    if after.Ok? {
      var more := after.value.value;
      assert before.ids + ([id.value] + more.ids) == before.ids + [id.value] + more.ids;
      assert before.vectors + (vector.value + more.vectors) == before.vectors + vector.value + more.vectors;
    }
  }

  lemma ResumeFromNothing(whole: Result<Read<Rows>, Error>)
    ensures ResumeRows(Rows([], []), whole) == whole
  {
    if whole.Ok? {
      assert [] + whole.value.value.ids == whole.value.value.ids;
      assert [] + whole.value.value.vectors == whole.value.value.vectors;
    }
  }

  lemma ResumeAtEnd(before: Rows, b: seq<byte>, dimensions: nat)
    ensures ResumeRows(before, ParseRows(b, 0, dimensions)) == Ok(Read(before, b))
  {
    assert before.ids + [] == before.ids && before.vectors + [] == before.vectors;
  }

  /** A row that does not parse fails the rows. */
  lemma RowFails(before: Rows, b: seq<byte>, count: nat, dimensions: nat)
    requires count > 0
    ensures match ParseText(b, InvalidId)
            case Err(error) => ResumeRows(before, ParseRows(b, count, dimensions)) == Err(error)
            case Ok(id) =>
              match ParseFloats(id.rest, dimensions)
              case Err(error) => ResumeRows(before, ParseRows(b, count, dimensions)) == Err(error)
              case Ok(_) => true
  {
  }

  method ReadRows(reader: SliceReader, count: nat, dimensions: nat) returns (r: Result<Rows, Error>)
    modifies reader
    ensures match ParseRows(old(reader.remaining), count, dimensions)
            case Ok(read) => r == Ok(read.value) && reader.remaining == read.rest
            case Err(error) => r == Err(error)
  {
    var ids: seq<seq<byte>> := [];
    var vectors: seq<word> := [];
    ghost var whole := ParseRows(reader.remaining, count, dimensions);
    ResumeFromNothing(whole);
    for i := 0 to count
      invariant whole == ResumeRows(Rows(ids, vectors), ParseRows(reader.remaining, count - i, dimensions))
    {
      ghost var before := reader.remaining;
      RowFails(Rows(ids, vectors), before, count - i, dimensions);
      var id :- ReadText(reader, InvalidId);
      var vector :- ReadFloats(reader, dimensions);
      RowStep(Rows(ids, vectors), before, count - i, dimensions);
      ids := ids + [id];
      vectors := vectors + vector;
    }
    ResumeAtEnd(Rows(ids, vectors), reader.remaining, dimensions);
    return Ok(Rows(ids, vectors));
  }

  method ReadHeader(reader: SliceReader) returns (r: Result<Header, Error>)
    modifies reader
    ensures match ParseHeader(old(reader.remaining))
            case Ok(read) => r == Ok(read.value) && reader.remaining == read.rest
            case Err(error) => r == Err(error)
  {
    var magic :- reader.Take(8);
    if magic != MAGIC {
      return Err(InvalidMagic);
    }
    var version :- reader.U32();
    if version != FORMAT_VERSION {
      return Err(UnsupportedFormat(version));
    }
    var dimensions :- reader.U32();
    var count :- reader.U64();
    if dimensions == 0 && count != 0 {
      return Err(ZeroDimensionalNonEmpty);
    }
    return Ok(Header(dimensions, count));
  }

  method Decode(bytes: seq<byte>) returns (r: Result<Index, Error>)
    ensures r == Decoded(bytes)
  {
    var reader := new SliceReader(bytes);
    var header :- ReadHeader(reader);
    var profile :- ReadText(reader, InvalidProfile);
    if header.count * header.dimensions >= DenseCodec.U64 {
      return Err(AllocationOverflow);
    }
    var rows :- ReadRows(reader, header.count, header.dimensions);
    if reader.remaining != [] {
      return Err(TrailingBytes);
    }
    return Ok(Index(profile, header.dimensions, rows.ids, rows.vectors));
  }

  // ----- Writing -----

  method WriteText(bytes: seq<byte>, text: seq<byte>, tooLong: Error) returns (r: Result<seq<byte>, Error>)
    ensures match EncodedText(text, tooLong)
            case Ok(encoded) => r == Ok(bytes + encoded)
            case Err(error) => r == Err(error)
  {
    if |text| >= U32 {
      return Err(tooLong);
    }
    return Ok(bytes + (Le(|text|, 4) + text));
  }

  method WriteFloats(bytes: seq<byte>, vector: seq<word>) returns (r: seq<byte>)
    ensures r == bytes + EncodedFloats(vector)
  {
    r := bytes;
    for i := 0 to |vector|
      invariant r + EncodedFloats(vector[i..]) == bytes + EncodedFloats(vector)
    {
      assert vector[i..][1..] == vector[i + 1..];
      assert r + (Le(vector[i], 4) + EncodedFloats(vector[i + 1..])) == r + Le(vector[i], 4) + EncodedFloats(vector[i + 1..]);
      r := r + Le(vector[i], 4);
    }
  }

  function Prepend(bytes: seq<byte>, rest: Result<seq<byte>, Error>): Result<seq<byte>, Error> {
    match rest
    case Ok(more) => Ok(bytes + more)
    case Err(error) => Err(error)
  }

  lemma PrependTwice(bytes: seq<byte>, head: seq<byte>, rest: Result<seq<byte>, Error>)
    ensures Prepend(bytes, Prepend(head, rest)) == Prepend(bytes + head, rest)
  {
    if rest.Ok? {
      assert bytes + (head + rest.value) == bytes + head + rest.value;
    }
  }

  lemma FirstRowOf(ids: seq<seq<byte>>, vectors: seq<word>, dimensions: nat) returns (rest: Result<seq<byte>, Error>)
    requires dimensions > 0 && ids != [] && |vectors| >= dimensions
    ensures rest == EncodedRows(ids[1..], vectors[dimensions..], dimensions)
    ensures match EncodedText(ids[0], IdTooLong)
            case Err(error) => EncodedRows(ids, vectors, dimensions) == Err(error)
            case Ok(id) => EncodedRows(ids, vectors, dimensions) == Prepend(id + EncodedFloats(vectors[..dimensions]), rest)
  {
    rest := EncodedRows(ids[1..], vectors[dimensions..], dimensions);
  }

  lemma RowWritten(bytes: seq<byte>, ids: seq<seq<byte>>, vectors: seq<word>, dimensions: nat)
    requires dimensions > 0 && ids != [] && |vectors| >= dimensions
    ensures match EncodedText(ids[0], IdTooLong)
            case Err(error) => Prepend(bytes, EncodedRows(ids, vectors, dimensions)) == Err(error)
            case Ok(id) =>
              Prepend(bytes, EncodedRows(ids, vectors, dimensions)) ==
              Prepend(bytes + id + EncodedFloats(vectors[..dimensions]), EncodedRows(ids[1..], vectors[dimensions..], dimensions))
  {
    var rest := FirstRowOf(ids, vectors, dimensions);
    if EncodedText(ids[0], IdTooLong).Ok? {
      var id, floats := EncodedText(ids[0], IdTooLong).value, EncodedFloats(vectors[..dimensions]);
      PrependTwice(bytes, id + floats, rest);
      assert bytes + (id + floats) == bytes + id + floats;
    }
  }

  method WriteRows(start: seq<byte>, ids: seq<seq<byte>>, vectors: seq<word>, dimensions: nat) returns (r: Result<seq<byte>, Error>)
    requires dimensions > 0
    ensures r == Prepend(start, EncodedRows(ids, vectors, dimensions))
  {
    var bytes := start;
    var i, offset := 0, 0;
    while i < |ids| && dimensions <= |vectors| - offset
      invariant i <= |ids| && offset <= |vectors|
      invariant Prepend(bytes, EncodedRows(ids[i..], vectors[offset..], dimensions)) == Prepend(start, EncodedRows(ids, vectors, dimensions))
    {
      RowWritten(bytes, ids[i..], vectors[offset..], dimensions);
      assert ids[i..][1..] == ids[i + 1..];
      assert vectors[offset..][..dimensions] == vectors[offset..offset + dimensions];
      assert vectors[offset..][dimensions..] == vectors[offset + dimensions..];
      bytes :- WriteText(bytes, ids[i], IdTooLong);
      bytes := WriteFloats(bytes, vectors[offset..offset + dimensions]);
      i, offset := i + 1, offset + dimensions;
    }
    assert bytes + [] == bytes;
    return Ok(bytes);
  }

  method Encode(x: Index) returns (r: Result<seq<byte>, Error>)
    requires x.dimensions > 0
    ensures r == Encoded(x)
  {
    if x.dimensions >= U32 {
      return Err(DimensionExceedsFormat);
    }
    if |x.ids| >= DenseCodec.U64 {
      return Err(CountExceedsFormat);
    }
    EncodedAsWritten(x);
    var bytes := MAGIC + (Le(FORMAT_VERSION, 4) + (Le(x.dimensions, 4) + Le(|x.ids|, 8)));
    bytes :- WriteText(bytes, x.profile, ProfileTooLong);
    r := WriteRows(bytes, x.ids, x.vectors, x.dimensions);
  }

  lemma EncodedAsWritten(x: Index)
    requires 0 < x.dimensions < U32 && |x.ids| < DenseCodec.U64
    ensures match EncodedText(x.profile, ProfileTooLong)
            case Err(error) => Encoded(x) == Err(error)
            case Ok(profile) =>
              Encoded(x) == Prepend(EncodedHeader(x.dimensions, |x.ids|) + profile, EncodedRows(x.ids, x.vectors, x.dimensions))
  {
    if EncodedText(x.profile, ProfileTooLong).Ok? {
      PrependTwice(EncodedHeader(x.dimensions, |x.ids|), EncodedText(x.profile, ProfileTooLong).value,
                   EncodedRows(x.ids, x.vectors, x.dimensions));
    }
  }
}
