/**
  Building the dense index with vectors reused from an earlier snapshot
  (crates/cce-engine/src/dense.rs, `dense_reuse_map` in engine.rs).  The
  reference is `Fresh`: embed every document, no reuse, no batches.
 */
module DenseBuild {
  import opened Common
  import opened Wrappers
  import opened Utf8
  import opened DenseCodec
  import DenseReader

  type Vector = seq<word>

  datatype Document = Document(id: seq<byte>, text: seq<byte>)

  /** A pointwise, deterministic model; `normalize` divides by the norm and keeps the length. */
  datatype Embedder = Embedder(profile: seq<byte>, embed: seq<byte> -> Vector, normalize: Vector -> Vector)

  type Digest = seq<byte> -> seq<byte>

  datatype BuildError = BatchSizeZero | InvalidVector | DimensionsChanged

  /** A float is finite unless its eight exponent bits are all set. */
  predicate Finite(w: word) {
    (w / 0x80_0000) % 256 != 255
  }

  /** Of the 32 bits of a float, sign, 8 of exponent and 23 of fraction, only an exponent of all ones makes it infinite or no number. */
  lemma FiniteExactly(sign: nat, exponent: nat, fraction: nat)
    requires sign < 2 && exponent < 256 && fraction < 8388608
    ensures var w := sign * 2147483648 + exponent * 8388608 + fraction;
            w < 4294967296 && (Finite(w) <==> exponent != 255)
  {
    var w := sign * 2147483648 + exponent * 8388608 + fraction;
    assert w == (sign * 256 + exponent) * 8388608 + fraction;
    assert w / 8388608 == sign * 256 + exponent;
  }

  predicate Good(v: Vector) {
    v != [] && forall i :: 0 <= i < |v| ==> Finite(v[i])
  }

  ghost predicate KeepsLength(e: Embedder) {
    forall v :: |e.normalize(v)| == |v|
  }

  ghost predicate Injective(digest: Digest) {
    forall a, b :: digest(a) == digest(b) ==> a == b
  }

  // ----- The reference build -----

  function VectorOf(e: Embedder, text: seq<byte>): Vector {
    e.normalize(e.embed(text))
  }

  /** Every text embeds to a usable vector of one common dimension. */
  predicate Uniform(e: Embedder, docs: seq<Document>) {
    forall i :: 0 <= i < |docs| ==> Good(e.embed(docs[i].text)) && |e.embed(docs[i].text)| == |e.embed(docs[0].text)|
  }

  function Flat(e: Embedder, docs: seq<Document>): seq<word> {
    if docs == [] then [] else VectorOf(e, docs[0].text) + Flat(e, docs[1..])
  }

  function Ids(docs: seq<Document>): seq<seq<byte>> {
    if docs == [] then [] else [docs[0].id] + Ids(docs[1..])
  }

  function Fresh(e: Embedder, docs: seq<Document>): Option<Index> {
    if Uniform(e, docs)
    then Some(Index(e.profile, if docs == [] then 0 else |e.embed(docs[0].text)|, Ids(docs), Flat(e, docs)))
    else None
  }

  /** A reuse map is sound when what it offers for a text is what the model would give. */
  ghost predicate Sound(e: Embedder, digest: Digest, reuse: map<seq<byte>, Vector>) {
    forall text :: digest(text) in reuse ==> Good(e.embed(text)) && reuse[digest(text)] == VectorOf(e, text)
  }

  // ----- The incremental build -----

  datatype Pending = Pending(position: nat, text: seq<byte>)

  predicate UsableBatch(e: Embedder, batch: seq<Pending>) {
    forall k :: 0 <= k < |batch| ==>
      Good(e.embed(batch[k].text)) && |e.embed(batch[k].text)| == |e.embed(batch[0].text)|
  }

  /** Embed one batch, check it, normalise it. */
  method EmbedBatch(e: Embedder, batch: seq<Pending>) returns (r: Result<seq<Vector>, BuildError>)
    ensures UsableBatch(e, batch) ==> r.Ok? && |r.value| == |batch|
    ensures r.Ok? ==> |r.value| == |batch| && forall k :: 0 <= k < |batch| ==> r.value[k] == VectorOf(e, batch[k].text)
    ensures !UsableBatch(e, batch) ==> r == Err(InvalidVector)
  {
    var vectors: seq<Vector> := [];
    for k := 0 to |batch|
      invariant |vectors| == k
      invariant forall j :: 0 <= j < k ==> vectors[j] == e.embed(batch[j].text)
    {
      vectors := vectors + [e.embed(batch[k].text)];
    }
    var dimensions := if vectors == [] then 0 else |vectors[0]|;
    for k := 0 to |vectors|
      invariant |vectors| == |batch|
      invariant forall j :: 0 <= j < k ==> vectors[j] == VectorOf(e, batch[j].text)
      invariant forall j :: k <= j < |vectors| ==> vectors[j] == e.embed(batch[j].text)
      invariant forall j :: 0 <= j < k ==> Good(e.embed(batch[j].text)) && |e.embed(batch[j].text)| == dimensions
    {
      if |vectors[k]| != dimensions || vectors[k] == [] || exists i :: 0 <= i < |vectors[k]| && !Finite(vectors[k][i]) {
        return Err(InvalidVector);
      }
      vectors := vectors[k := e.normalize(vectors[k])];
    }
    return Ok(vectors);
  }

  ghost predicate Filled(e: Embedder, docs: seq<Document>, vectors: seq<Option<Vector>>, n: nat) {
    && |vectors| == n <= |docs|
    && forall p :: 0 <= p < n && vectors[p].Some? ==>
         vectors[p].value == VectorOf(e, docs[p].text) && Good(e.embed(docs[p].text))
  }

  ghost predicate PendingOk(docs: seq<Document>, vectors: seq<Option<Vector>>, pending: seq<Pending>, from: nat) {
    && (forall k :: 0 <= k < |pending| ==>
          pending[k].position < |vectors| <= |docs| && pending[k].text == docs[pending[k].position].text)
    && (forall p :: 0 <= p < |vectors| && vectors[p].None? ==> exists k :: from <= k < |pending| && pending[k].position == p)
  }

  lemma AddReused(e: Embedder, docs: seq<Document>, vectors: seq<Option<Vector>>, pending: seq<Pending>, p: nat, v: Vector)
    requires p < |docs| && Filled(e, docs, vectors, p) && PendingOk(docs, vectors, pending, 0)
    requires v == VectorOf(e, docs[p].text) && Good(e.embed(docs[p].text))
    ensures Filled(e, docs, vectors + [Some(v)], p + 1) && PendingOk(docs, vectors + [Some(v)], pending, 0)
  {
  }

  lemma AddPending(e: Embedder, docs: seq<Document>, vectors: seq<Option<Vector>>, pending: seq<Pending>, p: nat)
    requires p < |docs| && Filled(e, docs, vectors, p) && PendingOk(docs, vectors, pending, 0)
    ensures Filled(e, docs, vectors + [None], p + 1)
    ensures PendingOk(docs, vectors + [None], pending + [Pending(p, docs[p].text)], 0)
  {
    var after := pending + [Pending(p, docs[p].text)];
    forall q | 0 <= q < p + 1 && (vectors + [None])[q].None?
      ensures exists k :: 0 <= k < |after| && after[k].position == q
    {
      if q == p {
        assert after[|pending|].position == q;
      } else {
        var k :| 0 <= k < |pending| && pending[k].position == q;
        assert after[k].position == q;
      }
    }
  }

  lemma {:induction false} IdsAppend(front: seq<Document>, doc: Document)
    ensures Ids(front + [doc]) == Ids(front) + [doc.id]
  {
    if front != [] {
      assert (front + [doc])[1..] == front[1..] + [doc];
      IdsAppend(front[1..], doc);
    }
  }

  /** Split the documents into reused vectors and texts still to embed. */
  method Split(e: Embedder, digest: Digest, docs: seq<Document>, reuse: Option<map<seq<byte>, Vector>>)
    returns (ids: seq<seq<byte>>, vectors: seq<Option<Vector>>, pending: seq<Pending>)
    requires reuse.Some? ==> Sound(e, digest, reuse.value)
    ensures ids == Ids(docs) && Filled(e, docs, vectors, |docs|) && PendingOk(docs, vectors, pending, 0)
    ensures forall k :: 0 <= k < |pending| ==> reuse.None? || digest(pending[k].text) !in reuse.value
  {
    ids, vectors, pending := [], [], [];
    for p := 0 to |docs|
      invariant ids == Ids(docs[..p])
      invariant Filled(e, docs, vectors, p) && PendingOk(docs, vectors, pending, 0)
      invariant forall k :: 0 <= k < |pending| ==> reuse.None? || digest(pending[k].text) !in reuse.value
    {
      var key := digest(docs[p].text);
      if reuse.Some? && key in reuse.value {
        AddReused(e, docs, vectors, pending, p, reuse.value[key]);
        vectors := vectors + [Some(reuse.value[key])];
      } else {
        AddPending(e, docs, vectors, pending, p);
        vectors := vectors + [None];
        pending := pending + [Pending(p, docs[p].text)];
      }
      assert docs[..p + 1] == docs[..p] + [docs[p]];
      IdsAppend(docs[..p], docs[p]);
      ids := ids + [docs[p].id];
    }
    assert docs[..|docs|] == docs;
  }

  /** Write one embedded batch into its slots. */
  method Place(e: Embedder, docs: seq<Document>, slots: seq<Option<Vector>>, pending: seq<Pending>, from: nat, embedded: seq<Vector>)
    returns (vectors: seq<Option<Vector>>)
    requires from + |embedded| <= |pending|
    requires Filled(e, docs, slots, |docs|) && PendingOk(docs, slots, pending, from)
    requires UsableBatch(e, pending[from..from + |embedded|])
    requires forall k :: 0 <= k < |embedded| ==> embedded[k] == VectorOf(e, pending[from + k].text)
    ensures Filled(e, docs, vectors, |docs|) && PendingOk(docs, vectors, pending, from + |embedded|)
  {
    vectors := slots;
    for k := 0 to |embedded|
      invariant Filled(e, docs, vectors, |docs|) && PendingOk(docs, vectors, pending, from + k)
    {
      assert pending[from..from + |embedded|][k] == pending[from + k];
      vectors := vectors[pending[from + k].position := Some(embedded[k])];
    }
  }

  /** Concatenate the slots, all of one dimension. */
  method Flatten(e: Embedder, docs: seq<Document>, vectors: seq<Option<Vector>>) returns (r: Result<(nat, seq<word>), BuildError>)
    requires KeepsLength(e) && Filled(e, docs, vectors, |docs|)
    requires forall p :: 0 <= p < |vectors| ==> vectors[p].Some?
    ensures Uniform(e, docs) ==> r == Ok((if docs == [] then 0 else |e.embed(docs[0].text)|, Flat(e, docs)))
    ensures !Uniform(e, docs) ==> r == Err(DimensionsChanged)
  {
    var dimensions: Option<nat> := None;
    var flat: seq<word> := [];
    for p := 0 to |vectors|
      invariant flat + Flat(e, docs[p..]) == Flat(e, docs)
      invariant dimensions == if p == 0 then None else Some(|e.embed(docs[0].text)|)
      invariant forall j :: 0 <= j < p ==> |e.embed(docs[j].text)| == |e.embed(docs[0].text)|
    {
      var vector := vectors[p].value;
      var expected := if dimensions.Some? then dimensions.value else |vector|;
      dimensions := Some(expected);
      if |vector| != expected {
        return Err(DimensionsChanged);
      }
      assert docs[p..][1..] == docs[p + 1..];
      flat := flat + vector;
    }
    assert flat + [] == flat;
    return Ok((if dimensions.Some? then dimensions.value else 0, flat));
  }

  /** With a sound reuse map every positive batch size gives the fresh index, or fails when the fresh build does. */
  method Build(e: Embedder, digest: Digest, docs: seq<Document>, batchSize: nat, reuse: Option<map<seq<byte>, Vector>>)
    returns (r: Result<Index, BuildError>)
    requires KeepsLength(e) && (reuse.Some? ==> Sound(e, digest, reuse.value))
    ensures batchSize == 0 ==> r == Err(BatchSizeZero)
    ensures batchSize > 0 && Fresh(e, docs).Some? ==> r == Ok(Fresh(e, docs).value)
    ensures batchSize > 0 && Fresh(e, docs).None? ==> r == Err(InvalidVector) || r == Err(DimensionsChanged)
  {
    if batchSize == 0 {
      return Err(BatchSizeZero);
    }
    var ids, vectors, pending := Split(e, digest, docs, reuse);
    var from := 0;
    while from < |pending|
      invariant from <= |pending|
      invariant Filled(e, docs, vectors, |docs|) && PendingOk(docs, vectors, pending, from)
    {
      var next := if batchSize < |pending| - from then from + batchSize else |pending|;
      var embedded := EmbedBatch(e, pending[from..next]);
      if embedded.Err? {
        BadBatch(e, docs, vectors, pending, from, next);
        return Err(embedded.error);
      }
      vectors := Place(e, docs, vectors, pending, from, embedded.value);
      from := next;
    }
    var flat := Flatten(e, docs, vectors);
    if flat.Err? {
      return Err(flat.error);
    }
    return Ok(Index(e.profile, flat.value.0, ids, flat.value.1));
  }

  lemma BadBatch(e: Embedder, docs: seq<Document>, vectors: seq<Option<Vector>>, pending: seq<Pending>, from: nat, next: nat)
    requires PendingOk(docs, vectors, pending, from)
    requires from <= next <= |pending| && !UsableBatch(e, pending[from..next])
    ensures !Uniform(e, docs)
  {
    var batch := pending[from..next];
    if Uniform(e, docs) {
      forall k | 0 <= k < |batch|
        ensures Good(e.embed(batch[k].text)) && |e.embed(batch[k].text)| == |e.embed(batch[0].text)|
      {
        assert batch[k] == pending[from + k] && batch[0] == pending[from];
      }
    }
  }

  // ----- The reuse map -----

  ghost predicate DistinctIds(docs: seq<Document>) {
    forall i, j :: 0 <= i < j < |docs| ==> docs[i].id != docs[j].id
  }

  /** `vectors.get(start..start + dimensions)` */
  function SliceAt(x: Index, position: nat): Option<Vector> {
    var start := position * x.dimensions;
    if start + x.dimensions <= |x.vectors| then Some(x.vectors[start..start + x.dimensions]) else None
  }

  /** Where a reuse entry came from: a position of the index and the stored text of its id. */
  ghost predicate FromPosition(x: Index, keys: map<seq<byte>, seq<byte>>, key: seq<byte>, v: Vector) {
    exists p :: 0 <= p < |x.ids| && x.ids[p] in keys && keys[x.ids[p]] == key && SliceAt(x, p) == Some(v)
  }

  ghost predicate StoredAs(digest: Digest, stored: seq<Document>, id: seq<byte>, key: seq<byte>) {
    exists i :: 0 <= i < |stored| && stored[i].id == id && key == digest(stored[i].text)
  }

  ghost predicate KeysFrom(digest: Digest, stored: seq<Document>, keys: map<seq<byte>, seq<byte>>) {
    forall id :: id in keys ==> StoredAs(digest, stored, id, keys[id])
  }

  ghost predicate AllFromPositions(x: Index, keys: map<seq<byte>, seq<byte>>, reusable: map<seq<byte>, Vector>) {
    forall key :: key in reusable ==> FromPosition(x, keys, key, reusable[key])
  }

  /** No position with a key and a vector is left out. */
  ghost predicate AllPositionsIn(x: Index, keys: map<seq<byte>, seq<byte>>, reusable: map<seq<byte>, Vector>, n: nat) {
    forall p :: 0 <= p < n <= |x.ids| && x.ids[p] in keys && SliceAt(x, p).Some? ==> keys[x.ids[p]] in reusable
  }

  ghost predicate AllStoredIn(stored: seq<Document>, keys: map<seq<byte>, seq<byte>>, n: nat) {
    forall i :: 0 <= i < n <= |stored| ==> stored[i].id in keys
  }

  ghost predicate EntriesFrom(digest: Digest, stored: seq<Document>, x: Index, reusable: map<seq<byte>, Vector>) {
    exists keys ::
      && KeysFrom(digest, stored, keys) && AllStoredIn(stored, keys, |stored|)
      && AllFromPositions(x, keys, reusable) && AllPositionsIn(x, keys, reusable, |x.ids|)
  }

  method TextKeys(digest: Digest, stored: seq<Document>) returns (keys: map<seq<byte>, seq<byte>>)
    ensures KeysFrom(digest, stored, keys) && AllStoredIn(stored, keys, |stored|)
  {
    keys := map[];
    for i := 0 to |stored|
      invariant KeysFrom(digest, stored, keys) && AllStoredIn(stored, keys, i)
    {
      assert StoredAs(digest, stored, stored[i].id, digest(stored[i].text));
      keys := keys[stored[i].id := digest(stored[i].text)];
    }
  }

  method JoinVectors(x: Index, keys: map<seq<byte>, seq<byte>>) returns (reusable: map<seq<byte>, Vector>)
    ensures AllFromPositions(x, keys, reusable) && AllPositionsIn(x, keys, reusable, |x.ids|)
  {
    reusable := map[];
    for position := 0 to |x.ids|
      invariant AllFromPositions(x, keys, reusable) && AllPositionsIn(x, keys, reusable, position)
    {
      var id := x.ids[position];
      var slice := SliceAt(x, position);
      if id in keys && slice.Some? {
        assert FromPosition(x, keys, keys[id], slice.value);
        reusable := reusable[keys[id] := slice.value];
      }
    }
  }

  datatype Artifact = Artifact(bytes: seq<byte>, stored: seq<Document>)

  /** Decode the prior artifact and key its vectors by the digests of the stored texts. */
  method DenseReuseMap(e: Embedder, digest: Digest, prior: Option<Artifact>)
    returns (r: Result<Option<map<seq<byte>, Vector>>, Error>)
    ensures prior.None? ==> r == Ok(None)
    ensures prior.Some? ==>
              match Decoded(prior.value.bytes)
              case Err(error) => r == Err(error)
              case Ok(x) =>
                && r.Ok?
                && (r.value.None? <==> x.profile != e.profile || x.dimensions == 0)
                && (r.value.Some? ==> EntriesFrom(digest, prior.value.stored, x, r.value.value))
  {
    if prior.None? {
      return Ok(None);
    }
    var x :- DenseReader.Decode(prior.value.bytes);
    if x.profile != e.profile || x.dimensions == 0 {
      return Ok(None);
    }
    var keys := TextKeys(digest, prior.value.stored);
    var reusable := JoinVectors(x, keys);
    return Ok(Some(reusable));
  }

  lemma {:induction false} FlatSlice(e: Embedder, docs: seq<Document>, dimensions: nat, p: nat)
    requires KeepsLength(e) && p < |docs|
    requires forall i :: 0 <= i < |docs| ==> |e.embed(docs[i].text)| == dimensions
    ensures p * dimensions + dimensions <= |Flat(e, docs)|
    ensures Flat(e, docs)[p * dimensions..p * dimensions + dimensions] == VectorOf(e, docs[p].text)
  {
    var first, rest := VectorOf(e, docs[0].text), Flat(e, docs[1..]);
    if p > 0 {
      FlatSlice(e, docs[1..], dimensions, p - 1);
      var at := (p - 1) * dimensions;
      assert p * dimensions == at + dimensions;
      assert (first + rest)[at + dimensions..at + dimensions + dimensions] == rest[at..at + dimensions];
    }
  }

  lemma {:induction false} IdsAt(docs: seq<Document>)
    ensures |Ids(docs)| == |docs|
    ensures forall i :: 0 <= i < |docs| ==> Ids(docs)[i] == docs[i].id
  {
    if docs != [] { IdsAt(docs[1..]); }
  }

  lemma FreshSlice(e: Embedder, docs: seq<Document>, p: nat)
    requires KeepsLength(e) && Fresh(e, docs).Some? && p < |docs|
    ensures SliceAt(Fresh(e, docs).value, p) == Some(VectorOf(e, docs[p].text))
  {
    FlatSlice(e, docs, Fresh(e, docs).value.dimensions, p);
  }

  lemma EntryIsModelVector(e: Embedder, digest: Digest, docs: seq<Document>, keys: map<seq<byte>, seq<byte>>, text: seq<byte>, v: Vector)
    requires KeepsLength(e) && Injective(digest) && DistinctIds(docs) && Fresh(e, docs).Some?
    requires KeysFrom(digest, docs, keys) && FromPosition(Fresh(e, docs).value, keys, digest(text), v)
    ensures Good(e.embed(text)) && v == VectorOf(e, text)
  {
    var x := Fresh(e, docs).value;
    IdsAt(docs);
    var p :| 0 <= p < |x.ids| && x.ids[p] in keys && keys[x.ids[p]] == digest(text) && SliceAt(x, p) == Some(v);
    assert StoredAs(digest, docs, x.ids[p], keys[x.ids[p]]);
    var i :| 0 <= i < |docs| && docs[i].id == x.ids[p] && digest(text) == digest(docs[i].text);
    assert i == p && docs[p].text == text;
    FreshSlice(e, docs, p);
  }

  /** The reuse map of a fresh index is sound: equal digests are equal texts, and the texts are those it was built from. */
  lemma ReuseOfFreshIsSound(e: Embedder, digest: Digest, docs: seq<Document>, reusable: map<seq<byte>, Vector>)
    requires KeepsLength(e) && Injective(digest) && DistinctIds(docs) && Fresh(e, docs).Some?
    requires EntriesFrom(digest, docs, Fresh(e, docs).value, reusable)
    ensures Sound(e, digest, reusable)
  {
    var x := Fresh(e, docs).value;
    var keys :| && KeysFrom(digest, docs, keys) && AllStoredIn(docs, keys, |docs|)
                && AllFromPositions(x, keys, reusable) && AllPositionsIn(x, keys, reusable, |x.ids|);
    forall text | digest(text) in reusable
      ensures Good(e.embed(text)) && reusable[digest(text)] == VectorOf(e, text)
    {
      assert FromPosition(x, keys, digest(text), reusable[digest(text)]);
      EntryIsModelVector(e, digest, docs, keys, text, reusable[digest(text)]);
    }
  }

  /** Unchanged text never pays the model: every text of the prior snapshot is in the map. */
  lemma ReuseOfFreshIsComplete(e: Embedder, digest: Digest, docs: seq<Document>, reusable: map<seq<byte>, Vector>, i: nat)
    requires KeepsLength(e) && Injective(digest) && DistinctIds(docs) && Fresh(e, docs).Some?
    requires EntriesFrom(digest, docs, Fresh(e, docs).value, reusable)
    requires i < |docs|
    ensures digest(docs[i].text) in reusable
  {
    var x := Fresh(e, docs).value;
    IdsAt(docs);
    var keys :| && KeysFrom(digest, docs, keys) && AllStoredIn(docs, keys, |docs|)
                && AllFromPositions(x, keys, reusable) && AllPositionsIn(x, keys, reusable, |x.ids|);
    FreshSlice(e, docs, i);
    assert x.ids[i] == docs[i].id && x.ids[i] in keys;
    assert StoredAs(digest, docs, docs[i].id, keys[docs[i].id]);
    var j :| 0 <= j < |docs| && docs[j].id == docs[i].id && keys[docs[i].id] == digest(docs[j].text);
    assert j == i;
  }

  // ----- A chain of snapshots -----

  /** What the format can hold of a snapshot's index: ids and profile are UTF-8, and the floats fit in memory. */
  ghost predicate Storable(e: Embedder, docs: seq<Document>) {
    && DistinctIds(docs) && Valid(e.profile)
    && (forall i :: 0 <= i < |docs| ==> Valid(docs[i].id))
    && |Flat(e, docs)| < DenseCodec.U64
  }

  /** The last artifact, if any, is the encoding of a fresh index of its stored documents. */
  ghost predicate ArtifactOk(e: Embedder, prior: Option<Artifact>) {
    prior.Some? ==>
      && DistinctIds(prior.value.stored) && Fresh(e, prior.value.stored).Some?
      && Decoded(prior.value.bytes) == Ok(Fresh(e, prior.value.stored).value)
  }

  lemma {:induction false} FlatLength(e: Embedder, docs: seq<Document>, dimensions: nat)
    requires KeepsLength(e) && forall i :: 0 <= i < |docs| ==> |e.embed(docs[i].text)| == dimensions
    ensures |Flat(e, docs)| == |docs| * dimensions
  {
    if docs != [] {
      FlatLength(e, docs[1..], dimensions);
      assert |docs| * dimensions == |docs[1..]| * dimensions + dimensions;
    }
  }

  lemma UniformExactly(e: Embedder, docs: seq<Document>)
    ensures Uniform(e, docs) <==>
              && (forall d :: d in docs ==> e.embed(d.text) != [])
              && (forall d, w :: d in docs && w in e.embed(d.text) ==> Finite(w))
              && (forall d, d' :: d in docs && d' in docs ==> |e.embed(d.text)| == |e.embed(d'.text)|)
  {
    if forall d, w :: d in docs && w in e.embed(d.text) ==> Finite(w) {
      forall i, j | 0 <= i < |docs| && 0 <= j < |e.embed(docs[i].text)| ensures Finite(e.embed(docs[i].text)[j]) {
        assert docs[i] in docs && e.embed(docs[i].text)[j] in e.embed(docs[i].text);
      }
    }
  }

  /** An index can be built exactly when every text embeds to finite floats, as many as any other, and at least one; without documents it is empty. */
  lemma FreshExactly(e: Embedder, docs: seq<Document>)
    ensures Fresh(e, docs).Some? <==>
              && (forall d :: d in docs ==> e.embed(d.text) != [])
              && (forall d, w :: d in docs && w in e.embed(d.text) ==> Finite(w))
              && (forall d, d' :: d in docs && d' in docs ==> |e.embed(d.text)| == |e.embed(d'.text)|)
    ensures Fresh(e, []) == Some(Index(e.profile, 0, [], []))
  {
    UniformExactly(e, docs);
  }

  /** Row p of an index belongs to document p: its id, and the normalized vector of its text. */
  lemma FreshRow(e: Embedder, docs: seq<Document>, p: nat)
    requires KeepsLength(e) && Fresh(e, docs).Some? && p < |docs|
    ensures var x := Fresh(e, docs).value;
            && x.profile == e.profile && x.dimensions == |e.embed(docs[p].text)|
            && |x.ids| == |docs| && x.ids[p] == docs[p].id
            && p * x.dimensions + x.dimensions <= |x.vectors| == |docs| * x.dimensions
            && x.vectors[p * x.dimensions..p * x.dimensions + x.dimensions] == e.normalize(e.embed(docs[p].text))
  {
    var dimensions := Fresh(e, docs).value.dimensions;
    IdsAt(docs);
    FlatLength(e, docs, dimensions);
    FlatSlice(e, docs, dimensions, p);
  }

  lemma {:induction false} RowsOkMeansShortIds(ids: seq<seq<byte>>, vectors: seq<word>, dimensions: nat)
    requires dimensions > 0 && Aligned(|ids|, vectors, dimensions) && EncodedRows(ids, vectors, dimensions).Ok?
    ensures forall id :: id in ids ==> |id| < U32
  {
    if ids != [] {
      RowsOkMeansShortIds(ids[1..], vectors[dimensions..], dimensions);
    }
  }

  lemma EncodedFreshDecodes(e: Embedder, docs: seq<Document>)
    requires KeepsLength(e) && Storable(e, docs) && Fresh(e, docs).Some? && docs != []
    requires Encoded(Fresh(e, docs).value).Ok?
    ensures Decoded(Encoded(Fresh(e, docs).value).value) == Ok(Fresh(e, docs).value)
  {
    var x := Fresh(e, docs).value;
    FlatLength(e, docs, x.dimensions);
    IdsAt(docs);
    AlignedIsProduct(|x.ids|, x.vectors, x.dimensions);
    RowsOkMeansShortIds(x.ids, x.vectors, x.dimensions);
    assert Valid(x.profile);
    DecodeOfEncode(x);
  }

  /** What a run over the snapshots reports: the index of each, None where the dense view failed. */
  ghost predicate AllFresh(e: Embedder, snapshots: seq<seq<Document>>, indexes: seq<Option<Index>>, n: nat) {
    && |indexes| == n <= |snapshots|
    && forall k :: 0 <= k < n ==> indexes[k] == Fresh(e, snapshots[k])
  }

  /** What the last stored artifact offers to the next build. */
  method ReuseOfLast(e: Embedder, digest: Digest, prior: Option<Artifact>) returns (reuse: Option<map<seq<byte>, Vector>>)
    requires KeepsLength(e) && Injective(digest) && ArtifactOk(e, prior)
    ensures reuse.Some? ==> Sound(e, digest, reuse.value)
  {
    var r := DenseReuseMap(e, digest, prior);
    if prior.Some? && r.value.Some? {
      ReuseOfFreshIsSound(e, digest, prior.value.stored, r.value.value);
    }
    reuse := r.value;
  }

  /** The artifact of a snapshot's index; None when the index cannot be encoded. */
  method ArtifactOf(e: Embedder, docs: seq<Document>, x: Index) returns (artifact: Option<Artifact>)
    requires KeepsLength(e) && Storable(e, docs) && Fresh(e, docs) == Some(x) && docs != []
    ensures artifact.Some? <==> Encoded(x).Ok?
    ensures artifact.Some? ==> artifact == Some(Artifact(Encoded(x).value, docs)) && ArtifactOk(e, artifact)
  {
    var bytes := DenseReader.Encode(x);
    if bytes.Err? { return None; }
    EncodedFreshDecodes(e, docs);
    artifact := Some(Artifact(bytes.value, docs));
  }

  /**
    Snapshots built one after another, each reusing the vectors of the last
    stored artifact, all equal their fresh builds.  A snapshot that cannot be
    built or encoded, or has no documents, stores no artifact.
   */
  method BuildChain(e: Embedder, digest: Digest, snapshots: seq<seq<Document>>, batchSize: nat) returns (indexes: seq<Option<Index>>)
    requires KeepsLength(e) && Injective(digest) && batchSize > 0
    requires forall k :: 0 <= k < |snapshots| ==> Storable(e, snapshots[k])
    ensures AllFresh(e, snapshots, indexes, |snapshots|)
  {
    indexes := [];
    var prior: Option<Artifact> := None;
    for k := 0 to |snapshots|
      invariant AllFresh(e, snapshots, indexes, k) && ArtifactOk(e, prior)
    {
      var docs := snapshots[k];
      var reuse := ReuseOfLast(e, digest, prior);
      var built := Build(e, digest, docs, batchSize, reuse);
      indexes := indexes + [if built.Ok? then Some(built.value) else None];
      if built.Ok? && docs != [] {
        var artifact := ArtifactOf(e, docs, built.value);
        if artifact.Some? { prior := artifact; }
      }
    }
  }
}
