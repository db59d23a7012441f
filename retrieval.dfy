/**
 * Payload hydration: the search hits carry only an id and a collection name
 * in their metadata; `EnrichWithPayload` fetches the full payload of every hit
 * in one batch and rebuilds each document from it, falling back to the hit's
 * own text when its payload is missing.
 */
module Retrieval {
  import opened Wrappers
  import opened Documents

  /** Payload key holding the passage text. */
  const TEXT_KEY := "document"
  /** Metadata key holding the point id of a search hit. */
  const ID_KEY := "_id"
  /** Metadata key holding the collection a search hit came from. */
  const COLLECTION_KEY := "_collection_name"

  /** A stored point's payload: a flat record of named values. */
  type Payload = map<string, Value>

  /** The collection's points, keyed by the string form of the point id. */
  type PointStore = map<string, Payload>

  /**
   * The one way rebuilding a document can fail: a payload whose text field is
   * not a string cannot become a document's `page_content`.
   */
  datatype HydrationError = PageContentNotText(id: Value)

  /** The hit's point id: its `_id` metadata value, or none when it has none. */
  function IdOf(d: Doc): Value {
    Get(d.metadata, ID_KEY)
  }

  predicate HasId(d: Doc) {
    IdOf(d) != NoneValue
  }

  /** The ids asked for: `str` of every non-`None` `_id`, in input order. */
  function RequestedIds(docs: seq<Doc>): (ids: seq<string>)
    ensures |ids| <= |docs|
    ensures ids == [] <==> forall i | 0 <= i < |docs| :: !HasId(docs[i])
    ensures forall i | 0 <= i < |docs| && HasId(docs[i]) :: Stringify(IdOf(docs[i])) in ids
    ensures forall s | s in ids :: exists i | 0 <= i < |docs| :: HasId(docs[i]) && Stringify(IdOf(docs[i])) == s
  {
    if docs == [] then []
    else
      var rest := RequestedIds(docs[1..]);
      assert forall i | 1 <= i < |docs| :: docs[i] == docs[1..][i - 1];
      if HasId(docs[0]) then [Stringify(IdOf(docs[0]))] + rest else rest
  }

  /** Requesting the ids of a concatenation asks for the ids of each part in turn. */
  lemma {:induction false} RequestedIdsAppend(a: seq<Doc>, b: seq<Doc>)
    ensures RequestedIds(a + b) == RequestedIds(a) + RequestedIds(b)
  {
    if a == [] {
      assert a + b == b;
    } else {
      assert (a + b)[1..] == a[1..] + b;
      RequestedIdsAppend(a[1..], b);
    }
  }

  /** The ids asked for depend on nothing but the documents' `_id` values. */
  lemma {:induction false} RequestedIdsOnlyReadIds(a: seq<Doc>, b: seq<Doc>)
    requires |a| == |b|
    requires forall i | 0 <= i < |a| :: IdOf(a[i]) == IdOf(b[i])
    ensures RequestedIds(a) == RequestedIds(b)
  {
    if a != [] {
      assert forall i | 0 <= i < |a| - 1 :: a[1..][i] == a[i + 1] && b[1..][i] == b[i + 1];
      RequestedIdsOnlyReadIds(a[1..], b[1..]);
    }
  }

  /**
   * The batch point fetch: the payload, keyed by the string form of the point id, of every
   * stored point whose id was asked for.
   */
  function FetchById(store: PointStore, ids: seq<string>): (r: map<string, Payload>)
    ensures forall k :: k in r <==> k in store && k in ids
    ensures forall k | k in r :: r[k] == store[k]
  {
    map k | k in store && k in ids :: store[k]
  }

  /**
   * The fetched payload filed under the string form of the hit's id, or an
   * empty payload when none was fetched. A hit without an id is looked up
   * under the string `"None"`.
   */
  function PayloadFor(byId: map<string, Payload>, d: Doc): (r: Payload)
    ensures Stringify(IdOf(d)) in byId ==> r == byId[Stringify(IdOf(d))]
    ensures Stringify(IdOf(d)) !in byId ==> r == map[]
    ensures !HasId(d) ==> r == (if "None" in byId then byId["None"] else map[])
  {
    var key := Stringify(IdOf(d));
    if key in byId then byId[key] else map[]
  }

  /** The payload without its text field, with the hit's id and collection written over it. */
  function RebuiltMetadata(payload: Payload, d: Doc): (r: Metadata)
    ensures r.Keys == (payload.Keys - {TEXT_KEY}) + {ID_KEY, COLLECTION_KEY}
    ensures r[ID_KEY] == IdOf(d)
    ensures r[COLLECTION_KEY] == Get(d.metadata, COLLECTION_KEY)
    ensures forall k | k in payload && k !in {TEXT_KEY, ID_KEY, COLLECTION_KEY} :: r[k] == payload[k]
  {
    (map k | k in payload && k != TEXT_KEY :: payload[k])
      [ID_KEY := IdOf(d)]
      [COLLECTION_KEY := Get(d.metadata, COLLECTION_KEY)]
  }

  /** One pass of the rebuilding loop: document `d` rebuilt from its payload. */
  function HydrateOne(byId: map<string, Payload>, d: Doc): (r: Result<Doc, HydrationError>)
    ensures var p := PayloadFor(byId, d);
      r.Success? <==> (TEXT_KEY in p ==> p[TEXT_KEY].Str?)
    ensures var p := PayloadFor(byId, d);
      r.Success? ==>
        && r.value.page_content == (if TEXT_KEY in p then p[TEXT_KEY].s else d.page_content)
        && r.value.metadata.Keys == (p.Keys - {TEXT_KEY}) + {ID_KEY, COLLECTION_KEY}
        && r.value.metadata[ID_KEY] == IdOf(d)
        && r.value.metadata[COLLECTION_KEY] == Get(d.metadata, COLLECTION_KEY)
        && forall k | k in p && k !in {TEXT_KEY, ID_KEY, COLLECTION_KEY} :: r.value.metadata[k] == p[k]
  {
    var payload := PayloadFor(byId, d);
    var meta := RebuiltMetadata(payload, d);
    if TEXT_KEY !in payload then Success(Doc(d.page_content, meta))
    else match payload[TEXT_KEY]
      case Str(text) => Success(Doc(text, meta))
      case _ => Failure(PageContentNotText(IdOf(d)))
  }

  /**
   * The rebuilding loop over `docs`, left to right: it stops at the first
   * document that cannot be rebuilt.
   */
  function HydrateAll(byId: map<string, Payload>, docs: seq<Doc>): (r: Result<seq<Doc>, HydrationError>)
    ensures r.Success? <==> forall i | 0 <= i < |docs| :: HydrateOne(byId, docs[i]).Success?
    ensures r.Success? ==>
      && |r.value| == |docs|
      && forall i | 0 <= i < |docs| :: r.value[i] == HydrateOne(byId, docs[i]).value
    ensures r.Failure? ==>
      exists i | 0 <= i < |docs| ::
        && HydrateOne(byId, docs[i]) == Failure(r.error)
        && forall j | 0 <= j < i :: HydrateOne(byId, docs[j]).Success?
  {
    if docs == [] then Success([])
    else
      var front := docs[..|docs| - 1];
      var last := docs[|docs| - 1];
      assert forall i | 0 <= i < |front| :: front[i] == docs[i];
      match HydrateAll(byId, front)
      case Failure(e) => Failure(e)
      case Success(done) =>
        match HydrateOne(byId, last)
        case Failure(e) => Failure(e)
        case Success(d) => Success(done + [d])
  }

  /** Once a prefix fails, the whole list fails with the same error. */
  lemma {:induction false} HydrateAllFailurePropagates(byId: map<string, Payload>, docs: seq<Doc>, n: nat)
    requires n <= |docs|
    requires HydrateAll(byId, docs[..n]).Failure?
    ensures HydrateAll(byId, docs) == HydrateAll(byId, docs[..n])
    decreases |docs| - n
  {
    if n == |docs| {
      assert docs[..n] == docs;
    } else {
      var front := docs[..|docs| - 1];
      assert front[..n] == docs[..n];
      HydrateAllFailurePropagates(byId, front, n);
    }
  }

  /**
   * `enrich_with_payload` as a value: the input unchanged when no hit has an
   * id, otherwise every hit rebuilt against the payloads fetched for the ids.
   * A success keeps the number of documents; a failure needs at least one hit
   * with an id, and names a hit whose fetched text is not a string.
   */
  function Enriched(store: PointStore, docs: seq<Doc>): (r: Result<seq<Doc>, HydrationError>)
    ensures (forall i | 0 <= i < |docs| :: !HasId(docs[i])) ==> r == Success(docs)
    ensures r.Success? ==> |r.value| == |docs|
    ensures r.Failure? ==>
      && (exists i | 0 <= i < |docs| :: HasId(docs[i]))
      && exists i | 0 <= i < |docs| :: HydrateOne(FetchById(store, RequestedIds(docs)), docs[i]) == Failure(r.error)
  {
    var ids := RequestedIds(docs);
    if ids == [] then Success(docs) else HydrateAll(FetchById(store, ids), docs)
  }

  /**
   * `enrich_with_payload`: collect the ids, fetch their payloads in one
   * batch, then rebuild the documents one by one into `enriched`.
   */
  method EnrichWithPayload(store: PointStore, docs: seq<Doc>) returns (r: Result<seq<Doc>, HydrationError>)
    ensures r == Enriched(store, docs)
  {
    var ids := RequestedIds(docs);
    if ids == [] {
      return Success(docs);
    }
    var byId := FetchById(store, ids);
    var enriched: seq<Doc> := [];
    for i := 0 to |docs|
      invariant HydrateAll(byId, docs[..i]) == Success(enriched)
    {
      var d := docs[i];
      assert docs[..i + 1][..i] == docs[..i];
      var payload := PayloadFor(byId, d);
      var meta := map k | k in payload && k != TEXT_KEY :: payload[k];
      meta := meta[ID_KEY := IdOf(d)][COLLECTION_KEY := Get(d.metadata, COLLECTION_KEY)];
      assert meta == RebuiltMetadata(payload, d);
      var text := d.page_content;
      if TEXT_KEY in payload {
        match payload[TEXT_KEY]
        case Str(s) => text := s;
        case _ =>
          assert HydrateOne(byId, d).Failure?;
          assert HydrateAll(byId, docs[..i + 1]) == Failure(PageContentNotText(IdOf(d)));
          HydrateAllFailurePropagates(byId, docs, i + 1);
          return Failure(PageContentNotText(IdOf(d)));
      }
      assert HydrateOne(byId, d) == Success(Doc(text, meta));
      enriched := enriched + [Doc(text, meta)];
    }
    assert docs[..|docs|] == docs;
    r := Success(enriched);
  }

  /**
   * Otherwise hydration is a pointwise, order-preserving rewrite: output `i`
   * is input `i` rebuilt against the payloads fetched for the requested ids.
   */
  lemma PointwiseRewrite(store: PointStore, docs: seq<Doc>, i: nat)
    requires exists j | 0 <= j < |docs| :: HasId(docs[j])
    requires i < |docs|
    ensures Enriched(store, docs).Success? ==>
      && |Enriched(store, docs).value| == |docs|
      && Enriched(store, docs).value[i] == HydrateOne(FetchById(store, RequestedIds(docs)), docs[i]).value
  {
  }

  /**
   * A hit whose id was not fetched keeps its own text, and its metadata is
   * just its id and collection name.
   */
  lemma MissingPayloadKeepsHit(byId: map<string, Payload>, d: Doc)
    requires Stringify(IdOf(d)) !in byId
    ensures HydrateOne(byId, d)
      == Success(Doc(d.page_content, map[ID_KEY := IdOf(d), COLLECTION_KEY := Get(d.metadata, COLLECTION_KEY)]))
  {
  }

  /** Rebuilding a rebuilt document against the same payloads changes nothing. */
  lemma HydrateOneIdempotent(byId: map<string, Payload>, d: Doc)
    requires HydrateOne(byId, d).Success?
    ensures IdOf(HydrateOne(byId, d).value) == IdOf(d)
    ensures HydrateOne(byId, HydrateOne(byId, d).value) == HydrateOne(byId, d)
  {
    var e := HydrateOne(byId, d).value;
    assert Get(e.metadata, COLLECTION_KEY) == Get(d.metadata, COLLECTION_KEY);
    assert RebuiltMetadata(PayloadFor(byId, e), e) == RebuiltMetadata(PayloadFor(byId, d), d);
  }

  /** Rebuilding a rebuilt list against the same payloads changes nothing, ids included. */
  lemma HydrateAllIdempotent(byId: map<string, Payload>, docs: seq<Doc>)
    requires HydrateAll(byId, docs).Success?
    ensures var out := HydrateAll(byId, docs).value;
      && |out| == |docs|
      && (forall i | 0 <= i < |docs| :: IdOf(out[i]) == IdOf(docs[i]))
      && HydrateAll(byId, out) == Success(out)
  {
    var out := HydrateAll(byId, docs).value;
    forall i | 0 <= i < |docs|
      ensures IdOf(out[i]) == IdOf(docs[i])
      ensures HydrateOne(byId, out[i]) == Success(out[i])
    {
      HydrateOneIdempotent(byId, docs[i]);
    }
    var again := HydrateAll(byId, out);
    assert again.Success?;
    assert again.value == out;
  }

  /** Hydrating an already hydrated list against the same store yields the same list. */
  lemma EnrichedIdempotent(store: PointStore, docs: seq<Doc>)
    ensures Enriched(store, docs).Success? ==>
      Enriched(store, Enriched(store, docs).value) == Enriched(store, docs)
  {
    var ids := RequestedIds(docs);
    if ids != [] && Enriched(store, docs).Success? {
      var byId := FetchById(store, ids);
      HydrateAllIdempotent(byId, docs);
      var out := HydrateAll(byId, docs).value;
      RequestedIdsOnlyReadIds(out, docs);
    }
  }
}
