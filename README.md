# Duckling entity extractor, modelled in Dafny

This project models `DucklingExtractor`, the rasa_nlu pipeline component
named `ner_duckling`. The component normalises entities. It is configured
with a set of Duckling dimensions, which must come from a fixed whitelist of
eleven. Once per pipeline it binds a Duckling engine for the pipeline's
language. For each message text it asks the engine for matches and keeps
the matches whose dimension is configured. It flattens each kept match to a
`{start, end, value, entity}` record, tags the record with
`extractor = "ner_duckling"`, and appends the records, in the engine's
order, to the entity list the caller passes in.

Files:

- `wrappers.dfy`: `Option`, `Result` and `Outcome`. These stand for Python's
  `None`, for raised exceptions and for calls that return normally.
- `strings.dfy`: `Join` (Python's `str.join`), `Contains` (substring) and the
  lemmas that show every joined item can be found in the joined text.
- `duckling_extractor.dfy`: module `Duckling`. It holds the whitelist, the
  match and entity records, the pure parts (`Validate`, `StoredDimensions`,
  `CacheKey`, `Relevant`, `Extracted`), and two classes. `DucklingExtractor`
  has the fields `dimensions` and `duckling` and the methods of the Python
  class. `EntityList` is the caller's entity list, which `Process` extends
  in place.

The Duckling engine is not part of this model. Building a `DucklingWrapper`
for a language is the parameter `bind: string -> Result<Handle, string>`,
where a `Failure` stands for the `ValueError` Duckling raises. The engine's
`parse` is the parameter `parse: (Handle, string) -> seq<Match>`.

`Process` is specified against the function `Extracted`. The lemmas
`ExtractedAppend` and `ExtractedSingle` pin `Extracted` down completely: it
maps a concatenation of match lists to the concatenation of their results,
and it maps one match to `[Normalized(m)]` or `[]`. `Normalized` writes the
record out field by field.

Two facts about the code shape the model:

- `create` (duckling_extractor.py:52) iterates over its argument, so an
  explicit `create(None)` raises a `TypeError`. Only `__init__` (line 40)
  turns `None` into the whole whitelist. `Validate(None)` therefore fails
  with `TypeError`.
- `process` returns `{"entities": entities.extend(extracted)}` (line 92),
  and `list.extend` returns `None`. The model's `Process` returns
  `map["entities" := None]`, and the new entities are visible only through
  `EntityList.items`.

The model has no default arguments. `Option.None` stands only for an
explicitly passed `None`. Calling `create()`, `load()` or `__init__()`
with the argument omitted gives the parameter the whitelist itself (lines
36, 51 and 96), which is `Create(Some(DucklingDimensions))` here. By
`EmptyRequestMeansAll` that request passes validation and stores the
whole whitelist.

## Model

| member | source | states |
|---|---|---|
| `Duckling.StoredDimensions` | rasa_nlu/extractors/duckling_extractor.py:36-43 | the stored list is never empty; an empty or absent request becomes the whole whitelist, and a non-empty request is kept unchanged with no validation |
| `Duckling.UnknownDimensions` | rasa_nlu/extractors/duckling_extractor.py:52 | a requested dimension is reported as unknown exactly when it is outside the whitelist; the report is empty exactly when every requested dimension is whitelisted |
| `Duckling.UnknownAppend` | rasa_nlu/extractors/duckling_extractor.py:52 | the unknown dimensions of a concatenated request are those of each part, concatenated: request order and repeats are kept, as the message lists them |
| `Duckling.InvalidDimensionMessage` | rasa_nlu/extractors/duckling_extractor.py:54-55 | the ValueError message names every unknown dimension and every whitelisted dimension |
| `Duckling.Validate` | rasa_nlu/extractors/duckling_extractor.py:51-55 | `create` raises exactly when some requested dimension is outside the whitelist, with a ValueError naming every offending value and the whole whitelist; any subset of the whitelist, the empty list included, passes; `None` raises a TypeError |
| `Duckling.ValidatedStoredWhitelisted` | rasa_nlu/extractors/duckling_extractor.py:40-57 | an extractor built by `create` only ever holds whitelisted dimensions |
| `Duckling.EmptyRequestMeansAll` | rasa_nlu/extractors/duckling_extractor.py:40-57 | requesting `[]` passes validation and stores the same dimensions as requesting the whole whitelist |
| `Duckling.BogusDimensionRejected` | rasa_nlu/extractors/duckling_extractor.py:52-55 | `["time", "bogus"]` is rejected with a ValueError that mentions "bogus" and all eleven allowed dimensions |
| `Duckling.CacheKey` | rasa_nlu/extractors/duckling_extractor.py:59-63 | the key is the name `ner_duckling`, a dash, then the metadata's language, and the language can be read back from the key |
| `Duckling.CacheKeyInjective` | rasa_nlu/extractors/duckling_extractor.py:63 | two metadata records give the same cache key exactly when their languages agree |
| `Duckling.Relevant` | rasa_nlu/extractors/duckling_extractor.py:81 | a match is kept exactly when it came from the engine and its dimension is configured; nothing is added |
| `Duckling.RelevantAppend` | rasa_nlu/extractors/duckling_extractor.py:81 | filtering preserves the engine's order: it distributes over concatenation |
| `Duckling.RelevantIdempotent` | rasa_nlu/extractors/duckling_extractor.py:81 | filtering the filtered matches again changes nothing |
| `Duckling.RelevantKeepsAll` | rasa_nlu/extractors/duckling_extractor.py:81 | nothing is dropped exactly when every match has a configured dimension |
| `Duckling.Reshape` | rasa_nlu/extractors/duckling_extractor.py:83-86 | the record built for one match copies its start, end and dimension (as `entity`), takes the payload's "value" scalar as value, and has no extractor tag yet |
| `Duckling.ReshapeAll` | rasa_nlu/extractors/duckling_extractor.py:82-88 | one record per kept match, in order, with start, end and dimension copied, the payload's "value" scalar as value, and no extractor tag yet |
| `Duckling.AddExtractorName` | rasa_nlu/extractors/duckling_extractor.py:90 | every record is tagged `extractor = "ner_duckling"`, and no other field changes |
| `Duckling.Extracted` | rasa_nlu/extractors/duckling_extractor.py:78-90 | what `process` appends: as many entities as configured matches, the i-th being the normalised form (`Normalized`) of the i-th configured match; `ExtractedAppend` and `ExtractedSingle` determine it on every input |
| `Duckling.ExtractedAppend` | rasa_nlu/extractors/duckling_extractor.py:78-92 | the entities appended for a concatenation of match lists are the concatenation of each list's entities, so engine order is kept |
| `Duckling.ExtractedSingle` | rasa_nlu/extractors/duckling_extractor.py:81-90 | one match yields exactly its normalised entity when its dimension is configured, and nothing otherwise |
| `Duckling.ExtractedMembers` | rasa_nlu/extractors/duckling_extractor.py:81-90 | an entity is appended exactly when it is the normalised form of some engine match with a configured dimension |
| `Duckling.ExtractedTagged` | rasa_nlu/extractors/duckling_extractor.py:81-90 | every appended entity carries a configured dimension and the `ner_duckling` extractor tag |
| `Duckling.TimeKeptEmailDropped` | rasa_nlu/extractors/duckling_extractor.py:78-92 | configured for time and number, a time match and an email match yield only the time entity, with its value scalar and the extractor tag |
| `Duckling.DucklingExtractor.constructor` | rasa_nlu/extractors/duckling_extractor.py:36-43 | the stored dimensions are the defaulted request, and the given handle (possibly none) is kept as it is |
| `Duckling.DucklingExtractor.Create` | rasa_nlu/extractors/duckling_extractor.py:50-57 | fails exactly when validation fails, with validation's error; on success, a new extractor with the defaulted request and no engine handle |
| `Duckling.DucklingExtractor.Load` | rasa_nlu/extractors/duckling_extractor.py:95-99 | behaves exactly as `Create` |
| `Duckling.DucklingExtractor.PipelineInit` | rasa_nlu/extractors/duckling_extractor.py:65-73 | an existing handle is left unchanged for any language; with no handle, a successful build binds the new handle, and a failed build raises "Duckling error. ..." and leaves the handle absent; the dimensions never change |
| `Duckling.DucklingExtractor.Process` | rasa_nlu/extractors/duckling_extractor.py:75-93 | with no handle the caller's list is unchanged for any text; with a handle the caller's list becomes its old contents followed by `Extracted` of the engine's matches; only the caller's list changes, and the returned context maps "entities" to `None` |

## Left out

- The Duckling engine: building a `DucklingWrapper` and its `parse` (lines 71 and 80) are parameters. The engine's own behaviour, including which language a handle is really bound to, is not modelled.
- The `from duckling import DucklingWrapper` at the start of `pipeline_init` is not modelled. If the package is missing, that import raises `ImportError`.
- In `pipeline_init`, only a `ValueError` from Duckling is caught (line 72). Other exceptions from the engine propagate, and the model does not represent them. The Python 2 `e.message` attribute is modelled as the error's message string, so the "Duckling error. ..." message is the Python 2 reading; under Python 3 exceptions have no `message` attribute, and the handler itself raises `AttributeError`.
- `add_extractor_name` comes from the `EntityExtractor` base class, which is not part of this model. It is modelled as setting `extractor` to the component name on every record. That is how line 90 uses it.
- `Process` ignores exceptions that `parse` raises while running. An engine call that fails propagates in the source; in the model `parse` is total.
- Payloads: `Payload` always has a "value" scalar. A payload without one would raise `KeyError` at line 85, and the model does not represent that. Scalars are text or real numbers. Python's int/float distinction and other value types are not modelled.
- The entity list: entries placed by other components are modelled with the same record shape, with an optional `extractor`. Arbitrary extra dictionary keys on them are not modelled.
- `Duckling.DucklingExtractor.constructor`: `__init__` stores the caller's list object itself (line 42), and with the default argument that object is the module-level `DUCKLING_DIMENSIONS` list. If the caller later mutates that list, the dimensions `process` filters by change with it. The model copies the list into the value `dimensions: seq<string>`, so this aliasing is not captured.
- `Metadata` is reduced to its `language` field. A `None` language, which would make line 63 raise `TypeError`, is not modelled.
- `required_packages`, `context_provides` and `output_provides` are declarations with no logic and are not modelled.
- Concurrency and the model-caching layer are not modelled. The component has neither.
