/** The Duckling entity extractor of the rasa_nlu pipeline: it validates the
    requested dimensions, binds a Duckling engine for one language at most
    once, and turns the engine's matches into flat entity records that it
    appends to the caller's entity list.

    The Duckling engine is not part of this model. Its construction for a
    language is the parameter `bind`, and its `parse` is the parameter `parse`. */
module Duckling {
  import opened Wrappers
  import opened Strings

  /** The closed whitelist of dimensions Duckling can extract, in source order. */
  const DucklingDimensions: seq<string> :=
    ["time", "temperature", "number", "ordinal", "distance", "volume",
     "amount-of-money", "duration", "email", "url", "phone-number"]

  /** The component's name: the cache-key prefix and the `extractor` tag. */
  const Name: string := "ner_duckling"

  /** Message of the TypeError Python raises when `create` iterates over `None`. */
  const NotIterableMessage: string := "'NoneType' object is not iterable"

  /** The exceptions this component raises. */
  datatype Error =
    | ValueError(message: string)   // unknown dimensions, from `create`
    | TypeError(message: string)    // `create(None)`: iterating over None
    | EngineError(message: string)  // `pipeline_init`: Duckling rejected the language

  /** A scalar in a Duckling value payload. */
  datatype Scalar = Text(text: string) | Number(number: real)

  /** A Duckling value payload: the scalar under "value", plus the richer
      structure (grain, unit, ranges, ...) under other keys. */
  datatype Payload = Payload(value: Scalar, extra: map<string, Scalar>)

  /** One raw match returned by Duckling's `parse`. */
  datatype Match = Match(start: int, end: int, dim: string, value: Payload)

  /** One entity record of the pipeline's entity list. `extractor` is absent
      until a component tags the record with its name. */
  datatype Entity = Entity(start: int, end: int, value: Scalar, entity: string,
                           extractor: Option<string>)

  /** An engine handle bound to a language (a `DucklingWrapper`). */
  datatype Handle = Handle(language: string)

  /** The pipeline metadata consulted by `cache_key`. */
  datatype Metadata = Metadata(language: string)

  // ---------------------------------------------------------------------------
  // Configuration: defaulting and validation

  /** The dimensions `__init__` stores: an empty or absent request means the
      whole whitelist; any other request is kept as it is, without validation. */
  function StoredDimensions(requested: Option<seq<string>>): (r: seq<string>)
    ensures r != []
    ensures requested.Some? && requested.value != [] ==> r == requested.value
    ensures requested == None || requested == Some([]) ==> r == DucklingDimensions
  {
    if requested.None? || requested.value == [] then DucklingDimensions else requested.value
  }

  /** The requested dimensions that are not in the whitelist, in request order. */
  function UnknownDimensions(dims: seq<string>): (r: seq<string>)
    ensures |r| <= |dims|
    ensures forall d :: d in r <==> d in dims && d !in DucklingDimensions
    ensures r == [] <==> forall d :: d in dims ==> d in DucklingDimensions
  {
    if dims == [] then []
    else if dims[0] in DucklingDimensions then UnknownDimensions(dims[1..])
    else [dims[0]] + UnknownDimensions(dims[1..])
  }

  /** The unknown dimensions of a concatenated request are those of each
      part, in request order and with repeats kept, as the message lists them. */
  lemma {:induction false} UnknownAppend(a: seq<string>, b: seq<string>)
    ensures UnknownDimensions(a + b) == UnknownDimensions(a) + UnknownDimensions(b)
  {
    if a == [] {
      assert a + b == b;
    } else {
      assert (a + b)[0] == a[0];
      assert (a + b)[1..] == a[1..] + b;
      UnknownAppend(a[1..], b);
    }
  }

  /** The ValueError message `create` raises for the unknown dimensions. */
  function InvalidDimensionMessage(unknown: seq<string>): (msg: string)
    ensures forall d :: d in unknown ==> Contains(msg, d)
    ensures forall d :: d in DucklingDimensions ==> Contains(msg, d)
  {
    JoinedMessageContains("Invalid duckling dimension. Got '", ", ", unknown,
                          "'. Allowed: ", DucklingDimensions);
    "Invalid duckling dimension. Got '" + Join(", ", unknown) + "'. Allowed: "
      + Join(", ", DucklingDimensions)
  }

  /** The check `create` runs before constructing: it raises exactly when a
      requested dimension is outside the whitelist, naming every unknown one
      and the whole whitelist; iterating an absent request raises a TypeError. */
  function Validate(requested: Option<seq<string>>): (r: Outcome<Error>)
    ensures r.Pass? <==> requested.Some? && forall d :: d in requested.value ==> d in DucklingDimensions
    ensures requested.None? ==> r.Fail? && r.error.TypeError?
    ensures requested.Some? && r.Fail? ==>
      && r.error.ValueError?
      && (forall d :: d in requested.value && d !in DucklingDimensions ==> Contains(r.error.message, d))
      && (forall d :: d in DucklingDimensions ==> Contains(r.error.message, d))
  {
    match requested
    case None => Fail(TypeError(NotIterableMessage))
    case Some(dims) =>
      var unknown := UnknownDimensions(dims);
      if |unknown| > 0 then Fail(ValueError(InvalidDimensionMessage(unknown)))
      else Pass
  }

  /** A request that passes validation is stored as a non-empty list of
      whitelisted dimensions, so an extractor built by `create` never holds
      an unknown dimension. */
  lemma ValidatedStoredWhitelisted(requested: Option<seq<string>>)
    requires Validate(requested).Pass?
    ensures forall d :: d in StoredDimensions(requested) ==> d in DucklingDimensions
  {
  }

  /** Requesting no dimension is the same as requesting all of them. */
  lemma EmptyRequestMeansAll()
    ensures Validate(Some([])) == Pass && Validate(Some(DucklingDimensions)) == Pass
    ensures StoredDimensions(Some([])) == StoredDimensions(Some(DucklingDimensions))
  {
  }

  /** Constructing with ["time", "bogus"] fails, and the message names "bogus"
      and every allowed dimension. */
  lemma BogusDimensionRejected()
    ensures var r := Validate(Some(["time", "bogus"]));
      && r.Fail? && r.error.ValueError?
      && Contains(r.error.message, "bogus")
      && forall d :: d in DucklingDimensions ==> Contains(r.error.message, d)
  {
    assert "bogus" !in DucklingDimensions;
  }

  // ---------------------------------------------------------------------------
  // Cache key

  /** The key under which the model cache stores this component for the
      metadata's language: the component name, a dash, then the language. */
  function CacheKey(metadata: Metadata): (k: string)
    ensures |k| == |Name| + 1 + |metadata.language|
    ensures k[..|Name|] == Name && k[|Name|] == '-'
    ensures k[|Name| + 1..] == metadata.language
  {
    Name + "-" + metadata.language
  }

  /** Two metadata records give the same cache key exactly when their
      languages agree. */
  lemma CacheKeyInjective(m1: Metadata, m2: Metadata)
    ensures CacheKey(m1) == CacheKey(m2) <==> m1.language == m2.language
  {
    if CacheKey(m1) == CacheKey(m2) {
      assert m1.language == CacheKey(m1)[|Name| + 1..];
    }
  }

  // ---------------------------------------------------------------------------
  // Filtering and reshaping matches

  /** The matches whose dimension is configured, in the engine's order. */
  function Relevant(matches: seq<Match>, dims: seq<string>): (r: seq<Match>)
    ensures |r| <= |matches|
    ensures forall m :: m in r <==> m in matches && m.dim in dims
  {
    if matches == [] then []
    else if matches[0].dim in dims then [matches[0]] + Relevant(matches[1..], dims)
    else Relevant(matches[1..], dims)
  }

  /** The record the loop body builds from one match, before tagging: span
      and dimension copied, the payload collapsed to its "value" scalar. */
  function Reshape(m: Match): (e: Entity)
    ensures e.start == m.start && e.end == m.end && e.entity == m.dim
    ensures e.value == m.value.value && e.extractor == None
  {
    Entity(m.start, m.end, m.value.value, m.dim, None)
  }

  /** Reshapes every match, keeping their order. */
  function ReshapeAll(matches: seq<Match>): (r: seq<Entity>)
    ensures |r| == |matches|
    ensures forall i :: 0 <= i < |matches| ==>
      && r[i].start == matches[i].start && r[i].end == matches[i].end
      && r[i].value == matches[i].value.value && r[i].entity == matches[i].dim
      && r[i].extractor == None
  {
    seq(|matches|, i requires 0 <= i < |matches| => Reshape(matches[i]))
  }

  /** `add_extractor_name`: tags every record with this component's name and
      changes nothing else about it. */
  function AddExtractorName(records: seq<Entity>): (r: seq<Entity>)
    ensures |r| == |records|
    ensures forall i :: 0 <= i < |r| ==>
      r[i].extractor == Some(Name) && r[i].(extractor := records[i].extractor) == records[i]
  {
    seq(|records|, i requires 0 <= i < |records| => records[i].(extractor := Some(Name)))
  }

  /** The entity a configured match stands for, written out field by field:
      span and dimension copied, the payload collapsed to its "value" scalar,
      and the record tagged with this component's name. */
  function Normalized(m: Match): Entity
  {
    Entity(start := m.start, end := m.end, value := m.value.value, entity := m.dim,
           extractor := Some(Name))
  }

  /** What one `process` call appends, given the engine's matches: entry by
      entry, the normalized form of the configured matches. */
  function Extracted(matches: seq<Match>, dims: seq<string>): (r: seq<Entity>)
    ensures |r| == |Relevant(matches, dims)|
    ensures forall i :: 0 <= i < |r| ==> r[i] == Normalized(Relevant(matches, dims)[i])
  {
    AddExtractorName(ReshapeAll(Relevant(matches, dims)))
  }

  /** Filtering distributes over concatenation: the kept matches keep their order. */
  lemma {:induction false} RelevantAppend(a: seq<Match>, b: seq<Match>, dims: seq<string>)
    ensures Relevant(a + b, dims) == Relevant(a, dims) + Relevant(b, dims)
  {
    if a == [] {
      assert a + b == b;
    } else {
      assert (a + b)[0] == a[0];
      assert (a + b)[1..] == a[1..] + b;
      RelevantAppend(a[1..], b, dims);
    }
  }

  /** Filtering twice by the same dimensions is filtering once. */
  lemma {:induction false} RelevantIdempotent(matches: seq<Match>, dims: seq<string>)
    ensures Relevant(Relevant(matches, dims), dims) == Relevant(matches, dims)
  {
    if matches != [] {
      RelevantIdempotent(matches[1..], dims);
    }
  }

  /** Nothing is dropped exactly when every match has a configured dimension. */
  lemma {:induction false} RelevantKeepsAll(matches: seq<Match>, dims: seq<string>)
    ensures Relevant(matches, dims) == matches <==> forall m :: m in matches ==> m.dim in dims
  {
    if matches != [] {
      RelevantKeepsAll(matches[1..], dims);
      if matches[0].dim in dims {
        assert matches == [matches[0]] + matches[1..];
      } else {
        assert |Relevant(matches, dims)| < |matches| by {
          assert |Relevant(matches[1..], dims)| <= |matches[1..]|;
        }
      }
    }
  }

  /** The appended list of a concatenation of matches is the concatenation
      of their appended lists: entities come out in the engine's order. */
  lemma ExtractedAppend(a: seq<Match>, b: seq<Match>, dims: seq<string>)
    ensures Extracted(a + b, dims) == Extracted(a, dims) + Extracted(b, dims)
  {
    RelevantAppend(a, b, dims);
  }

  /** A single match yields its normalized entity if its dimension is
      configured and nothing otherwise. With ExtractedAppend this determines
      Extracted on every input. */
  lemma ExtractedSingle(m: Match, dims: seq<string>)
    ensures Extracted([m], dims) == if m.dim in dims then [Normalized(m)] else []
  {
    assert [m][1..] == [];
  }

  /** An entity is appended exactly when it is the normalized form of some
      configured match. */
  lemma ExtractedMembers(matches: seq<Match>, dims: seq<string>, e: Entity)
    ensures e in Extracted(matches, dims) <==> exists m :: m in matches && m.dim in dims && e == Normalized(m)
  {
    var rel := Relevant(matches, dims);
    if e in Extracted(matches, dims) {
      var i :| 0 <= i < |Extracted(matches, dims)| && Extracted(matches, dims)[i] == e;
      assert rel[i] in rel;
    }
    if exists m :: m in matches && m.dim in dims && e == Normalized(m) {
      var m :| m in matches && m.dim in dims && e == Normalized(m);
      var i :| 0 <= i < |rel| && rel[i] == m;
      assert Extracted(matches, dims)[i] == e;
    }
  }

  /** Every appended entity carries a configured dimension and this
      component's tag, so filtering them again by dimension drops nothing. */
  lemma ExtractedTagged(matches: seq<Match>, dims: seq<string>)
    ensures forall e :: e in Extracted(matches, dims) ==> e.entity in dims && e.extractor == Some(Name)
  {
    forall e | e in Extracted(matches, dims)
      ensures e.entity in dims && e.extractor == Some(Name)
    {
      ExtractedMembers(matches, dims, e);
    }
  }

  /** Configured for ["time", "number"], a time match and an email match
      yield one time entity; the email match is dropped. */
  lemma TimeKeptEmailDropped()
    ensures Extracted([Match(0, 5, "time", Payload(Text("2024-01-01"), map[])),
                       Match(6, 9, "email", Payload(Text("a@b.co"), map[]))],
                      ["time", "number"])
         == [Entity(0, 5, Text("2024-01-01"), "time", Some(Name))]
  {
    var time := Match(0, 5, "time", Payload(Text("2024-01-01"), map[]));
    var email := Match(6, 9, "email", Payload(Text("a@b.co"), map[]));
    assert "email" != "time" && "email" != "number";
    ExtractedAppend([time], [email], ["time", "number"]);
    ExtractedSingle(time, ["time", "number"]);
    ExtractedSingle(email, ["time", "number"]);
    assert [time] + [email] == [time, email];
  }

  // ---------------------------------------------------------------------------
  // State

  /** The caller-owned running list of entities, extended in place. */
  class EntityList {
    var items: seq<Entity>

    constructor (items: seq<Entity>)
      ensures this.items == items
    {
      this.items := items;
    }
  }

  /** The extractor: its configured dimensions and its engine handle, which
      is absent until `PipelineInit` binds it (or the caller injects one). */
  class DucklingExtractor {
    var dimensions: seq<string>
    var duckling: Option<Handle>

    /** `__init__`: defaults an empty or absent request to the whole
        whitelist, does no validation, and keeps the given handle. */
    constructor (requested: Option<seq<string>>, duckling: Option<Handle>)
      ensures dimensions == StoredDimensions(requested)
      ensures this.duckling == duckling
    {
      if requested.None? || requested.value == [] {
        dimensions := DucklingDimensions;
      } else {
        dimensions := requested.value;
      }
      this.duckling := duckling;
    }

    /** `create`: raises when validation fails; otherwise a new extractor
        with the (defaulted) request and no engine handle. */
    static method Create(requested: Option<seq<string>>) returns (r: Result<DucklingExtractor, Error>)
      ensures r.Failure? <==> Validate(requested).Fail?
      ensures r.Failure? ==> r.error == Validate(requested).error
      ensures r.Success? ==>
        fresh(r.value) && r.value.dimensions == StoredDimensions(requested) && r.value.duckling == None
    {
      var check := Validate(requested);
      if check.Fail? {
        return Failure(check.error);
      }
      var extractor := new DucklingExtractor(requested, None);
      return Success(extractor);
    }

    /** `load`: the same as `create`. */
    static method Load(requested: Option<seq<string>>) returns (r: Result<DucklingExtractor, Error>)
      ensures r.Failure? <==> Validate(requested).Fail?
      ensures r.Failure? ==> r.error == Validate(requested).error
      ensures r.Success? ==>
        fresh(r.value) && r.value.dimensions == StoredDimensions(requested) && r.value.duckling == None
    {
      r := Create(requested);
    }

    /** `pipeline_init`: a handle that already exists is kept whatever the
        language; otherwise Duckling is constructed for the language, and
        either the new handle is bound or an error is raised and the handle
        stays absent. The dimensions never change. */
    method PipelineInit(language: string, bind: string -> Result<Handle, string>)
      returns (r: Outcome<Error>)
      modifies this
      ensures dimensions == old(dimensions)
      ensures old(duckling).Some? ==> duckling == old(duckling) && r == Pass
      ensures old(duckling).None? && bind(language).Success? ==>
        duckling == Some(bind(language).value) && r == Pass
      ensures old(duckling).None? && bind(language).Failure? ==>
        duckling == None && r == Fail(EngineError("Duckling error. " + bind(language).error))
    {
      r := Pass;
      if duckling.None? {
        var built := bind(language);
        match built
        case Success(h) =>
          duckling := Some(h);
        case Failure(message) =>
          r := Fail(EngineError("Duckling error. " + message));
      }
    }

    /** `process`: with no handle the caller's list is left as it is, for
        any text; with a handle, the engine's matches for the text are
        filtered to the configured dimensions, reshaped in order, tagged,
        and appended to the caller's list. The returned context maps
        "entities" to the result of `list.extend`, which is `None`. */
    method Process(text: string, entities: EntityList, parse: (Handle, string) -> seq<Match>)
      returns (context: map<string, Option<seq<Entity>>>)
      modifies entities
      ensures duckling.None? ==> entities.items == old(entities.items)
      ensures duckling.Some? ==>
        entities.items == old(entities.items) + Extracted(parse(duckling.value, text), dimensions)
      ensures context == map["entities" := None]
    {
      var extracted: seq<Entity> := [];
      if duckling.Some? {
        var matches := parse(duckling.value, text);
        var relevant := Relevant(matches, dimensions);
        var i := 0;
        while i < |relevant|
          invariant 0 <= i <= |relevant|
          invariant |extracted| == i
          invariant forall k :: 0 <= k < i ==> extracted[k] == Reshape(relevant[k])
        {
          extracted := extracted + [Reshape(relevant[i])];
          i := i + 1;
        }
        assert extracted == ReshapeAll(relevant);
      }
      extracted := AddExtractorName(extracted);
      entities.items := entities.items + extracted;
      context := map["entities" := None];
    }
  }
}
