/**
  The bytes of a dense artifact, one field at a time (crates/cce-engine/src/dense.rs):
  where each field of an encoding lies, and what a header must hold to be accepted.
 */
module DenseLayout {
  import opened DenseCodec
  import opened Utf8
  import opened Wrappers

  /** The number in four bytes, the lowest first. */
  function Little4(b: seq<byte>, at: nat): nat
    requires at + 4 <= |b|
  {
    Four(b[at], b[at + 1], b[at + 2], b[at + 3])
  }

  function Four(a: nat, b: nat, c: nat, d: nat): nat {
    a + 256 * b + 65536 * c + 16777216 * d
  }

  lemma FromLeStep(b: seq<byte>, at: nat)
    requires at < |b|
    ensures FromLe(b[at..]) == b[at] as int + 256 * FromLe(b[at + 1..])
  {
    assert b[at..][1..] == b[at + 1..];
  }

  lemma FromLeFour(b: seq<byte>, high: nat)
    requires |b| >= 4 && FromLe(b[4..]) == high
    ensures FromLe(b) == Little4(b, 0) + 4294967296 * high
  {
    FromLeStep(b, 3);
    FromLeStep(b, 2);
    FromLeStep(b, 1);
    FromLeStep(b, 0);
    assert b[0..] == b;
  }

  lemma LittleAt(b: seq<byte>, at: nat)
    requires at + 4 <= |b|
    ensures FromLe(b[at..at + 4]) == Little4(b, at)
  {
    FromLeFour(b[at..at + 4], 0);
  }

  lemma LittleEightAt(b: seq<byte>, at: nat)
    requires at + 8 <= |b|
    ensures FromLe(b[at..at + 8]) == Little4(b, at) + 4294967296 * Little4(b, at + 4)
  {
    var eight := b[at..at + 8];
    LittleAt(b, at + 4);
    assert eight[4..] == b[at + 4..at + 4 + 4];
    FromLeFour(eight, Little4(b, at + 4));
  }

  /** Four bytes that hold a number. */
  predicate Holds4(bytes: seq<byte>, n: nat) {
    |bytes| == 4 && Little4(bytes, 0) == n
  }

  predicate Holds8(bytes: seq<byte>, n: nat) {
    |bytes| == 8 && Little4(bytes, 0) + 4294967296 * Little4(bytes, 4) == n
  }

  lemma LeHolds4(n: nat)
    requires n < 4294967296
    ensures Holds4(Le(n, 4), n)
  {
    Widths();
    FromLeOfLe(n, 4);
    LittleAt(Le(n, 4), 0);
    assert Le(n, 4)[0..4] == Le(n, 4);
  }

  lemma LeHolds8(n: nat)
    requires n < 18446744073709551616
    ensures Holds8(Le(n, 8), n)
  {
    Widths();
    FromLeOfLe(n, 8);
    LittleEightAt(Le(n, 8), 0);
    assert Le(n, 8)[0..8] == Le(n, 8);
  }

  /** What four bytes hold they hold wherever they stand. */
  lemma HeldAt(b: seq<byte>, at: nat, bytes: seq<byte>, n: nat)
    requires Holds4(bytes, n) && at + 4 <= |b| && b[at..at + 4] == bytes
    ensures Little4(b, at) == n
  {
    assert b[at] == bytes[0] && b[at + 1] == bytes[1] && b[at + 2] == bytes[2] && b[at + 3] == bytes[3];
  }

  lemma HeldAt8(b: seq<byte>, at: nat, bytes: seq<byte>, n: nat)
    requires Holds8(bytes, n) && at + 8 <= |b| && b[at..at + 8] == bytes
    ensures Little4(b, at) + 4294967296 * Little4(b, at + 4) == n
  {
    assert bytes[..4] == b[at..at + 4] && bytes[4..] == b[at + 4..at + 8];
    HeldAt(b, at, bytes[..4], Little4(bytes, 0));
    HeldAt(b, at + 4, bytes[4..], Little4(bytes, 4));
  }

  lemma Middle(b: seq<byte>, front: seq<byte>, mid: seq<byte>, rest: seq<byte>)
    requires b == front + mid + rest
    ensures b[|front|..|front| + |mid|] == mid && b[|front| + |mid|..] == rest
  {
  }

  /** The bytes "CCEVEC1" and a zero. */
  predicate StartsWithMagic(b: seq<byte>) {
    |b| >= 8 && b[0] == 67 && b[1] == 67 && b[2] == 69 && b[3] == 86 && b[4] == 69 && b[5] == 67 && b[6] == 49 && b[7] == 0
  }

  /** The 24 bytes before the profile: magic, version 1, dimension, and number of rows. */
  predicate HeaderBytes(b: seq<byte>, dimensions: nat, count: nat) {
    && |b| >= 24 && StartsWithMagic(b) && Little4(b, 8) == 1 && Little4(b, 12) == dimensions
    && Little4(b, 16) + 4294967296 * Little4(b, 20) == count
  }

  lemma FourParts(magic: seq<byte>, v: seq<byte>, d: seq<byte>, c: seq<byte>, dimensions: nat, count: nat)
    requires |magic| == 8 && StartsWithMagic(magic) && Holds4(v, 1) && Holds4(d, dimensions) && Holds8(c, count)
    ensures var b := magic + (v + (d + c)); |b| == 24 && HeaderBytes(b, dimensions, count)
  {
    var b := magic + (v + (d + c));
    Middle(b, magic, v, d + c);
    Middle(b, magic + v, d, c);
    Middle(b, magic + v + d, c, []);
    HeldAt(b, 8, v, 1);
    HeldAt(b, 12, d, dimensions);
    HeldAt8(b, 16, c, count);
  }

  lemma EncodedHeaderBytes(dimensions: nat, count: nat)
    requires dimensions < 4294967296 && count < 18446744073709551616
    ensures |EncodedHeader(dimensions, count)| == 24 && HeaderBytes(EncodedHeader(dimensions, count), dimensions, count)
  {
    LeHolds4(1);
    LeHolds4(dimensions);
    LeHolds8(count);
    FourParts(MAGIC, Le(1, 4), Le(dimensions, 4), Le(count, 8), dimensions, count);
  }

  lemma HeaderPrefix(b: seq<byte>, rest: seq<byte>, dimensions: nat, count: nat)
    requires HeaderBytes(b, dimensions, count)
    ensures HeaderBytes(b + rest, dimensions, count)
  {
    assert forall i :: 0 <= i < |b| ==> (b + rest)[i] == b[i];
  }

  /** A text in an artifact: its length in four bytes, and its bytes. */
  predicate TextBytes(b: seq<byte>, at: nat, text: seq<byte>) {
    at + 4 + |text| <= |b| && Little4(b, at) == |text| && b[at + 4..at + 4 + |text|] == text
  }

  lemma TextIsAt(b: seq<byte>, front: seq<byte>, length: seq<byte>, text: seq<byte>, rest: seq<byte>)
    requires Holds4(length, |text|) && b == front + length + (text + rest)
    ensures TextBytes(b, |front|, text) && b[|front| + 4 + |text|..] == rest
  {
    Middle(b, front, length, text + rest);
    HeldAt(b, |front|, length, |text|);
    assert b == (front + length) + text + rest;
    Middle(b, front + length, text, rest);
  }

  lemma {:induction false} FloatsAre(vector: seq<word>, k: nat)
    requires k < |vector|
    ensures |EncodedFloats(vector)| == 4 * |vector| && EncodedFloats(vector)[4 * k..4 * k + 4] == Le(vector[k], 4)
    decreases |vector|
  {
    var first, rest := Le(vector[0], 4), EncodedFloats(vector[1..]);
    var b := EncodedFloats(vector);
    assert b == first + rest;
    if |vector| > 1 {
      var j := if k > 0 then k - 1 else 0;
      FloatsAre(vector[1..], j);
      assert b[4 * (j + 1)..4 * (j + 1) + 4] == rest[4 * j..4 * j + 4];
    } else {
      assert rest == [];
    }
    assert b[..4] == first;
  }

  lemma EncodedParts(x: Index) returns (length: seq<byte>, rows: seq<byte>)
    requires x.dimensions > 0 && Encoded(x).Ok?
    ensures x.dimensions < 4294967296 && |x.ids| < 18446744073709551616 && Holds4(length, |x.profile|)
    ensures EncodedRows(x.ids, x.vectors, x.dimensions) == Ok(rows)
    ensures Encoded(x).value == EncodedHeader(x.dimensions, |x.ids|) + ((length + x.profile) + rows)
  {
    length := Le(|x.profile|, 4);
    rows := EncodedRows(x.ids, x.vectors, x.dimensions).value;
    LeHolds4(|x.profile|);
  }

  lemma Regrouped(header: seq<byte>, length: seq<byte>, text: seq<byte>, rows: seq<byte>)
    ensures header + ((length + text) + rows) == header + length + (text + rows)
  {
  }

  /**
    The layout of every encoding: 24 bytes of header, the profile with its length
    before it, then the rows.
   */
  lemma EncodingLayout(x: Index)
    requires x.dimensions > 0 && Encoded(x).Ok?
    ensures var b := Encoded(x).value;
            && HeaderBytes(b, x.dimensions, |x.ids|) && TextBytes(b, 24, x.profile)
            && EncodedRows(x.ids, x.vectors, x.dimensions) == Ok(b[28 + |x.profile|..])
  {
    var length, rows := EncodedParts(x);
    var header, b := EncodedHeader(x.dimensions, |x.ids|), Encoded(x).value;
    EncodedHeaderBytes(x.dimensions, |x.ids|);
    HeaderPrefix(header, (length + x.profile) + rows, x.dimensions, |x.ids|);
    Regrouped(header, length, x.profile, rows);
    TextIsAt(b, header, length, x.profile, rows);
  }

  lemma RowParts(ids: seq<seq<byte>>, vectors: seq<word>, dimensions: nat) returns (length: seq<byte>, floats: seq<byte>, more: seq<byte>)
    requires dimensions > 0 && ids != [] && |vectors| >= dimensions && EncodedRows(ids, vectors, dimensions).Ok?
    ensures Holds4(length, |ids[0]|) && floats == EncodedFloats(vectors[..dimensions])
    ensures EncodedRows(ids[1..], vectors[dimensions..], dimensions) == Ok(more)
    ensures EncodedRows(ids, vectors, dimensions).value == (length + ids[0]) + floats + more
  {
    length, floats := Le(|ids[0]|, 4), EncodedFloats(vectors[..dimensions]);
    more := EncodedRows(ids[1..], vectors[dimensions..], dimensions).value;
    LeHolds4(|ids[0]|);
  }

  lemma SliceOfMiddle(b: seq<byte>, front: seq<byte>, mid: seq<byte>, rest: seq<byte>, i: nat, j: nat)
    requires b == front + mid + rest && i <= j <= |mid|
    ensures |front| + |mid| <= |b| && b[|front| + i..|front| + j] == mid[i..j] && b[|front| + |mid|..] == rest
  {
  }

  /** A float of the row, told by the bytes that hold it. */
  lemma FloatHeld(vector: seq<word>, k: nat) returns (floats: seq<byte>)
    requires k < |vector|
    ensures floats == EncodedFloats(vector) && |floats| == 4 * |vector| && Holds4(floats[4 * k..4 * k + 4], vector[k])
  {
    FloatsAre(vector, k);
    LeHolds4(vector[k]);
    floats := EncodedFloats(vector);
  }

  lemma FloatAt(b: seq<byte>, front: seq<byte>, floats: seq<byte>, more: seq<byte>, dimensions: nat, k: nat, w: word)
    requires k < dimensions && |floats| == 4 * dimensions && b == front + floats + more && Holds4(floats[4 * k..4 * k + 4], w)
    ensures |front| + 4 * dimensions <= |b|
    ensures Little4(b, |front| + 4 * k) == w && b[|front| + 4 * dimensions..] == more
  {
    SliceOfMiddle(b, front, floats, more, 4 * k, 4 * k + 4);
    HeldAt(b, |front| + 4 * k, floats[4 * k..4 * k + 4], w);
  }

  /** A row is the id with its length before it and its floats, four bytes each; the other rows follow. */
  lemma RowLayout(ids: seq<seq<byte>>, vectors: seq<word>, dimensions: nat, k: nat)
    requires dimensions > 0 && ids != [] && |vectors| >= dimensions && k < dimensions
    requires EncodedRows(ids, vectors, dimensions).Ok?
    ensures var b, at := EncodedRows(ids, vectors, dimensions).value, 4 + |ids[0]|;
            && TextBytes(b, 0, ids[0]) && at + 4 * dimensions <= |b| && Little4(b, at + 4 * k) == vectors[k]
            && EncodedRows(ids[1..], vectors[dimensions..], dimensions) == Ok(b[at + 4 * dimensions..])
  {
    var b := EncodedRows(ids, vectors, dimensions).value;
    var length, floats, more := RowParts(ids, vectors, dimensions);
    IdIsFirst(b, length, ids[0], floats, more);
    var same := FloatHeld(vectors[..dimensions], k);
    FloatAt(b, length + ids[0], floats, more, dimensions, k, vectors[k]);
  }

  lemma IdIsFirst(b: seq<byte>, length: seq<byte>, id: seq<byte>, floats: seq<byte>, more: seq<byte>)
    requires Holds4(length, |id|) && b == (length + id) + floats + more
    ensures TextBytes(b, 0, id)
  {
    assert b == [] + length + (id + (floats + more));
    TextIsAt(b, [], length, id, floats + more);
  }

  // ----- The header on reading -----

  lemma MagicExactly(b: seq<byte>)
    requires |b| >= 8
    ensures b[..8] == MAGIC <==> StartsWithMagic(b)
  {
    assert b[..8] == MAGIC <==> forall i :: 0 <= i < 8 ==> b[i] == MAGIC[i];
  }

  lemma NatAt(b: seq<byte>, at: nat, width: nat)
    requires at + width <= |b|
    ensures ParseNat(b[at..], width) == Ok(Read(FromLe(b[at..at + width]), b[at + width..]))
  {
    assert b[at..][..width] == b[at..at + width] && b[at..][width..] == b[at + width..];
  }

  /** What a header's fields make of it, once its bytes are read. */
  lemma HeaderFields(b: seq<byte>)
    requires |b| >= 24 && StartsWithMagic(b)
    ensures ParseNat(b[8..], 4) == Ok(Read(Little4(b, 8), b[12..]))
    ensures ParseNat(b[12..], 4) == Ok(Read(Little4(b, 12), b[16..]))
    ensures ParseNat(b[16..], 8) == Ok(Read(Little4(b, 16) + 4294967296 * Little4(b, 20), b[24..]))
  {
    LittleAt(b, 8);
    LittleAt(b, 12);
    LittleEightAt(b, 16);
    NatAt(b, 8, 4);
    NatAt(b, 12, 4);
    NatAt(b, 16, 8);
  }

  /** Bytes that do not start a dense artifact of version 1. */
  lemma NotAnArtifact(b: seq<byte>)
    ensures |b| < 8 ==> ParseHeader(b) == Err(Truncated)
    ensures |b| >= 8 && !StartsWithMagic(b) ==> ParseHeader(b) == Err(InvalidMagic)
    ensures StartsWithMagic(b) && |b| >= 12 && Little4(b, 8) != 1 ==> ParseHeader(b) == Err(UnsupportedFormat(Little4(b, 8)))
  {
    if |b| >= 8 { MagicExactly(b); }
    if |b| >= 12 {
      LittleAt(b, 8);
      assert b[8..][..4] == b[8..8 + 4];
    }
  }

  /** A whole header of version 1 is accepted, unless it announces rows of no dimension. */
  lemma HeaderAcceptedExactly(b: seq<byte>)
    requires |b| >= 24 && StartsWithMagic(b) && Little4(b, 8) == 1
    ensures var dimensions, count := Little4(b, 12), Little4(b, 16) + 4294967296 * Little4(b, 20);
            if dimensions == 0 && count != 0 then ParseHeader(b) == Err(ZeroDimensionalNonEmpty)
            else ParseHeader(b) == Ok(Read(Header(dimensions, count), b[24..]))
  {
    MagicExactly(b);
    HeaderFields(b);
  }

  /** A text with its length before it is read exactly when it is all there and valid UTF-8. */
  lemma TextReadExactly(b: seq<byte>, invalid: Error)
    ensures |b| < 4 || |b| < 4 + Little4(b, 0) ==> ParseText(b, invalid) == Err(Truncated)
    ensures |b| >= 4 && |b| >= 4 + Little4(b, 0) ==>
              var n := Little4(b, 0);
              ParseText(b, invalid) == if Valid(b[4..4 + n]) then Ok(Read(b[4..4 + n], b[4 + n..])) else Err(invalid)
  {
    if |b| >= 4 {
      LittleAt(b, 0);
      assert b[..4] == b[0..0 + 4];
      var n := Little4(b, 0);
      if |b| >= 4 + n {
        assert b[4..][..n] == b[4..4 + n] && b[4..][n..] == b[4 + n..];
      }
    }
  }

  /** A whole header followed by a profile that is cut off or not UTF-8 is refused, each with its error. */
  lemma ProfileErrors(b: seq<byte>)
    requires |b| >= 24 && ParseHeader(b).Ok?
    ensures var rest := b[24..];
            && (|rest| < 4 || |rest| < 4 + Little4(rest, 0) ==> Decoded(b) == Err(Truncated))
            && (|rest| >= 4 && |rest| >= 4 + Little4(rest, 0) && !Valid(rest[4..4 + Little4(rest, 0)]) ==> Decoded(b) == Err(InvalidProfile))
  {
    NotAnArtifact(b);
    HeaderAcceptedExactly(b);
    TextReadExactly(b[24..], InvalidProfile);
  }

  /** Rows that start with an id that is cut off or not UTF-8 are refused, each with its error. */
  lemma IdErrors(b: seq<byte>, count: nat, dimensions: nat)
    requires count > 0
    ensures |b| < 4 || |b| < 4 + Little4(b, 0) ==> ParseRows(b, count, dimensions) == Err(Truncated)
    ensures |b| >= 4 && |b| >= 4 + Little4(b, 0) && !Valid(b[4..4 + Little4(b, 0)]) ==> ParseRows(b, count, dimensions) == Err(InvalidId)
  {
    TextReadExactly(b, InvalidId);
  }

  /** What the encoder refuses, in the order of its checks. */
  lemma EncodeErrors(x: Index)
    requires x.dimensions > 0
    ensures x.dimensions > 4294967295 ==> Encoded(x) == Err(DimensionExceedsFormat)
    ensures x.dimensions <= 4294967295 && |x.ids| > 18446744073709551615 ==> Encoded(x) == Err(CountExceedsFormat)
    ensures x.dimensions <= 4294967295 && |x.ids| <= 18446744073709551615 && |x.profile| > 4294967295 ==>
              Encoded(x) == Err(ProfileTooLong)
    ensures x.ids != [] && |x.vectors| >= x.dimensions && |x.ids[0]| > 4294967295 ==>
              EncodedRows(x.ids, x.vectors, x.dimensions) == Err(IdTooLong)
  {
  }
}
