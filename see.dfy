/**
 * The image-understanding ("see") declarations: the option schema a caller fills in, the
 * minimal and verbose response schemas, and the shape of one streamed event.
 */
module See {
  import opened Wrappers
  import opened JsValue
  import opened Zod

  // Declared option defaults.
  const DEFAULT_PROMPT: string := "describe this image"
  const DEFAULT_SYSTEM_PROMPT: string := ""
  const DEFAULT_STREAM: bool := false
  const DEFAULT_TEMPERATURE: real := 0.2
  const DEFAULT_MAX_TOKENS: real := -1.0
  const DEFAULT_PRESENCE_PENALTY: real := 0.0
  const DEFAULT_FREQUENCY_PENALTY: real := 0.0
  const DEFAULT_TOP_P: real := 1.0
  const DEFAULT_VERBOSE: bool := false

  /** `base.default(fallback).optional()`, the form every optional option is written in. */
  function DefaultedOptional(base: Schema, fallback: Value): Schema {
    ZOptional(ZDefault(base, fallback))
  }

  const SeeOptionsSchema: Schema := ZObject([
    Prop("image", ZUrl),
    Prop("prompt", DefaultedOptional(ZString, Str(DEFAULT_PROMPT))),
    Prop("system_prompt", DefaultedOptional(ZString, Str(DEFAULT_SYSTEM_PROMPT))),
    Prop("stream", DefaultedOptional(ZBoolean, Bool(DEFAULT_STREAM))),
    Prop("temperature", DefaultedOptional(ZNumber, Num(DEFAULT_TEMPERATURE))),
    Prop("max_tokens", DefaultedOptional(ZNumber, Num(DEFAULT_MAX_TOKENS))),
    Prop("presence_penalty", DefaultedOptional(ZNumber, Num(DEFAULT_PRESENCE_PENALTY))),
    Prop("frequency_penalty", DefaultedOptional(ZNumber, Num(DEFAULT_FREQUENCY_PENALTY))),
    Prop("top_p", DefaultedOptional(ZNumber, Num(DEFAULT_TOP_P))),
    Prop("verbose", DefaultedOptional(ZBoolean, Bool(DEFAULT_VERBOSE)))
  ])

  const SeeResponseShape: seq<Prop> := [Prop("content", ZString)]

  const SeeResponseSchema: Schema := ZObject(SeeResponseShape)

  const TimingsSchema: Schema := ZObject([
    Prop("predicted_ms", ZNumber),
    Prop("predicted_n", ZNumber),
    Prop("predicted_per_second", ZNumber),
    Prop("prompt_ms", ZNumber)
  ])

  const SeeResponseVerboseExtension: seq<Prop> := [
    Prop("content", ZString),
    Prop("model", ZString),
    Prop("timings", TimingsSchema),
    Prop("tokens_cached", ZNumber),
    Prop("tokens_evaluated", ZNumber),
    Prop("tokens_predicted", ZNumber)
  ]

  const SeeResponseVerboseSchema: Schema := ZObject(Extend(SeeResponseShape, SeeResponseVerboseExtension))

  const SeeStreamingResponseSchema: Schema := ZObject([
    Prop("content", ZString),
    Prop("stop", ZBoolean)
  ])

  // Reference definitions of the shapes, written field by field.

  /** An optional field: absent (undefined), or present with the given check passing. */
  predicate AbsentOr(v: Value, present: bool) {
    v.Undefined? || present
  }

  predicate IsSeeOptions(v: Value, isUrl: string -> bool) {
    && IsObject(v)
    && var o := Props(v);
    && Field(o, "image").Str? && isUrl(Field(o, "image").s)
    && AbsentOr(Field(o, "prompt"), Field(o, "prompt").Str?)
    && AbsentOr(Field(o, "system_prompt"), Field(o, "system_prompt").Str?)
    && AbsentOr(Field(o, "stream"), Field(o, "stream").Bool?)
    && AbsentOr(Field(o, "temperature"), Field(o, "temperature").Num?)
    && AbsentOr(Field(o, "max_tokens"), Field(o, "max_tokens").Num?)
    && AbsentOr(Field(o, "presence_penalty"), Field(o, "presence_penalty").Num?)
    && AbsentOr(Field(o, "frequency_penalty"), Field(o, "frequency_penalty").Num?)
    && AbsentOr(Field(o, "top_p"), Field(o, "top_p").Num?)
    && AbsentOr(Field(o, "verbose"), Field(o, "verbose").Bool?)
  }

  predicate IsSeeResponse(v: Value) {
    IsObject(v) && Field(Props(v), "content").Str?
  }

  predicate IsTimings(v: Value) {
    && IsObject(v)
    && Field(Props(v), "predicted_ms").Num?
    && Field(Props(v), "predicted_n").Num?
    && Field(Props(v), "predicted_per_second").Num?
    && Field(Props(v), "prompt_ms").Num?
  }

  predicate IsSeeResponseVerbose(v: Value) {
    && IsObject(v)
    && Field(Props(v), "content").Str?
    && Field(Props(v), "model").Str?
    && IsTimings(Field(Props(v), "timings"))
    && Field(Props(v), "tokens_cached").Num?
    && Field(Props(v), "tokens_evaluated").Num?
    && Field(Props(v), "tokens_predicted").Num?
  }

  predicate IsSeeStreamingResponse(v: Value) {
    IsObject(v) && Field(Props(v), "content").Str? && Field(Props(v), "stop").Bool?
  }
}

/** What the see schemas accept, stated against the reference definitions in `See`. */
module SeeProperties {
  import opened Wrappers
  import opened JsValue
  import opened Zod
  import opened See

  /** What the option declared at position `j` of the option schema demands of `o`. */
  predicate SeeOptionAt(j: nat, o: map<string, Value>, isUrl: string -> bool) {
    match j
    case 0 => Field(o, "image").Str? && isUrl(Field(o, "image").s)
    case 1 => AbsentOr(Field(o, "prompt"), Field(o, "prompt").Str?)
    case 2 => AbsentOr(Field(o, "system_prompt"), Field(o, "system_prompt").Str?)
    case 3 => AbsentOr(Field(o, "stream"), Field(o, "stream").Bool?)
    case 4 => AbsentOr(Field(o, "temperature"), Field(o, "temperature").Num?)
    case 5 => AbsentOr(Field(o, "max_tokens"), Field(o, "max_tokens").Num?)
    case 6 => AbsentOr(Field(o, "presence_penalty"), Field(o, "presence_penalty").Num?)
    case 7 => AbsentOr(Field(o, "frequency_penalty"), Field(o, "frequency_penalty").Num?)
    case 8 => AbsentOr(Field(o, "top_p"), Field(o, "top_p").Num?)
    case _ => AbsentOr(Field(o, "verbose"), Field(o, "verbose").Bool?)
  }

  lemma SeeOptionFieldsA(o: map<string, Value>, isUrl: string -> bool)
    ensures forall j :: 0 <= j < 3 ==>
      (Accepts(SeeOptionsSchema.shape[j].schema, Field(o, SeeOptionsSchema.shape[j].key), isUrl) <==> SeeOptionAt(j, o, isUrl))
  {
    var shape := SeeOptionsSchema.shape;
    forall j | 0 <= j < 3
      ensures Accepts(shape[j].schema, Field(o, shape[j].key), isUrl) <==> SeeOptionAt(j, o, isUrl)
    {
      if j == 0 {} else if j == 1 {} else { assert j == 2; }
    }
  }

  lemma SeeOptionFieldsB(o: map<string, Value>, isUrl: string -> bool)
    ensures forall j :: 3 <= j < 7 ==>
      (Accepts(SeeOptionsSchema.shape[j].schema, Field(o, SeeOptionsSchema.shape[j].key), isUrl) <==> SeeOptionAt(j, o, isUrl))
  {
    var shape := SeeOptionsSchema.shape;
    forall j | 3 <= j < 7
      ensures Accepts(shape[j].schema, Field(o, shape[j].key), isUrl) <==> SeeOptionAt(j, o, isUrl)
    {
      if j == 3 {} else if j == 4 {} else if j == 5 {} else { assert j == 6; }
    }
  }

  lemma SeeOptionFieldsC(o: map<string, Value>, isUrl: string -> bool)
    ensures forall j :: 7 <= j < 10 ==>
      (Accepts(SeeOptionsSchema.shape[j].schema, Field(o, SeeOptionsSchema.shape[j].key), isUrl) <==> SeeOptionAt(j, o, isUrl))
  {
    var shape := SeeOptionsSchema.shape;
    forall j | 7 <= j < 10
      ensures Accepts(shape[j].schema, Field(o, shape[j].key), isUrl) <==> SeeOptionAt(j, o, isUrl)
    {
      if j == 7 {} else if j == 8 {} else { assert j == 9; }
    }
  }

  lemma SeeOptionsByPosition(v: Value, isUrl: string -> bool)
    requires IsObject(v)
    ensures IsSeeOptions(v, isUrl) <==> forall j :: 0 <= j < 10 ==> SeeOptionAt(j, Props(v), isUrl)
  {
    if forall j :: 0 <= j < 10 ==> SeeOptionAt(j, Props(v), isUrl) {
      assert SeeOptionAt(0, Props(v), isUrl) && SeeOptionAt(1, Props(v), isUrl) && SeeOptionAt(2, Props(v), isUrl);
      assert SeeOptionAt(3, Props(v), isUrl) && SeeOptionAt(4, Props(v), isUrl) && SeeOptionAt(5, Props(v), isUrl);
      assert SeeOptionAt(6, Props(v), isUrl) && SeeOptionAt(7, Props(v), isUrl) && SeeOptionAt(8, Props(v), isUrl);
      assert SeeOptionAt(9, Props(v), isUrl);
    }
    if IsSeeOptions(v, isUrl) {
      forall j | 0 <= j < 10 ensures SeeOptionAt(j, Props(v), isUrl) {
        if j == 0 {} else if j == 1 {} else if j == 2 {} else if j == 3 {} else if j == 4 {} else if j == 5 {} else if j == 6 {} else if j == 7 {} else if j == 8 {} else { assert j == 9; }
      }
    }
  }

  /**
   * The option schema requires only `image`, a string the URL check accepts; every other
   * option may be absent and, when present, must have its declared type. Keys the schema
   * does not name are not rejected.
   */
  lemma SeeOptionsSchemaMeaning(v: Value, isUrl: string -> bool)
    ensures Accepts(SeeOptionsSchema, v, isUrl) <==> IsSeeOptions(v, isUrl)
  {
    if IsObject(v) {
      SeeOptionFieldsA(Props(v), isUrl);
      SeeOptionFieldsB(Props(v), isUrl);
      SeeOptionFieldsC(Props(v), isUrl);
      SeeOptionsByPosition(v, isUrl);
    }
  }

  /** A `Buffer` or a `File` passed as the options is refused: it has no `image`. */
  lemma SeeOptionsRefuseUpload(v: Value, isUrl: string -> bool)
    requires v.Buffer? || v.File?
    ensures !Accepts(SeeOptionsSchema, v, isUrl)
  {
    SeeOptionsSchemaMeaning(v, isUrl);
  }

  /**
   * Options that give only an image are accepted: no default has to be filled in for the
   * schema to pass, since each optional entry accepts `undefined` before its default.
   */
  lemma SeeImageAloneSuffices(image: string, isUrl: string -> bool)
    requires isUrl(image)
    ensures Accepts(SeeOptionsSchema, Obj(map["image" := Str(image)]), isUrl)
  {
    SeeOptionsSchemaMeaning(Obj(map["image" := Str(image)]), isUrl);
  }

  /**
   * Every declared default (prompt "describe this image", system_prompt "", stream false,
   * temperature 0.2, max_tokens -1, presence_penalty 0, frequency_penalty 0, top_p 1,
   * verbose false) has the type its option declares.
   */
  lemma SeeOptionDefaultsConform(isUrl: string -> bool)
    ensures forall j :: 0 <= j < |SeeOptionsSchema.shape| ==>
      match DeclaredDefault(SeeOptionsSchema.shape[j].schema)
      case Some(d) => Accepts(SeeOptionsSchema.shape[j].schema, d, isUrl)
      case None => true
  {
    var shape := SeeOptionsSchema.shape;
    forall j | 0 <= j < |shape|
      ensures match DeclaredDefault(shape[j].schema)
              case Some(d) => Accepts(shape[j].schema, d, isUrl)
              case None => true
    {
      if j == 0 {} else if j == 1 {} else if j == 2 {} else if j == 3 {} else if j == 4 {} else if j == 5 {} else if j == 6 {} else if j == 7 {} else if j == 8 {} else { assert j == 9; }
    }
  }

  /** A minimal see response is accepted exactly when `content` is a string. */
  lemma SeeResponseSchemaMeaning(v: Value, isUrl: string -> bool)
    ensures Accepts(SeeResponseSchema, v, isUrl) <==> IsSeeResponse(v)
  {
    var shape := SeeResponseShape;
    if IsObject(v) {
      assert Accepts(SeeResponseSchema, v, isUrl) <==> Accepts(shape[0].schema, Field(Props(v), shape[0].key), isUrl);
    }
  }

  lemma TimingsSchemaMeaning(v: Value, isUrl: string -> bool)
    ensures Accepts(TimingsSchema, v, isUrl) <==> IsTimings(v)
  {
    var shape := TimingsSchema.shape;
    if Accepts(TimingsSchema, v, isUrl) {
      assert Accepts(shape[0].schema, Field(Props(v), shape[0].key), isUrl);
      assert Accepts(shape[1].schema, Field(Props(v), shape[1].key), isUrl);
      assert Accepts(shape[2].schema, Field(Props(v), shape[2].key), isUrl);
      assert Accepts(shape[3].schema, Field(Props(v), shape[3].key), isUrl);
    }
  }

  /**
   * `.extend` keeps `content` first, with the same schema, and appends the new fields: the
   * verbose shape is the extension itself.
   */
  lemma SeeResponseVerboseShape()
    ensures Extend(SeeResponseShape, SeeResponseVerboseExtension) == SeeResponseVerboseExtension
  {
    var ext := SeeResponseVerboseExtension;
    assert SeeResponseShape == [ext[0]];
    forall k | 1 <= k < |ext| ensures ext[k].key != ext[0].key {
      if k == 1 {} else if k == 2 {} else if k == 3 {} else if k == 4 {} else { assert k == 5; }
    }
    ExtendOfLeadingEntry(ext);
  }

  /** What the field declared at position `j` of the verbose extension demands of `o`. */
  predicate SeeVerboseAt(j: nat, o: map<string, Value>) {
    match j
    case 0 => Field(o, "content").Str?
    case 1 => Field(o, "model").Str?
    case 2 => IsTimings(Field(o, "timings"))
    case 3 => Field(o, "tokens_cached").Num?
    case 4 => Field(o, "tokens_evaluated").Num?
    case _ => Field(o, "tokens_predicted").Num?
  }

  lemma SeeVerboseFields(o: map<string, Value>, isUrl: string -> bool)
    ensures forall j :: 0 <= j < |SeeResponseVerboseExtension| ==>
      (Accepts(SeeResponseVerboseExtension[j].schema, Field(o, SeeResponseVerboseExtension[j].key), isUrl) <==> SeeVerboseAt(j, o))
  {
    var ext := SeeResponseVerboseExtension;
    TimingsSchemaMeaning(Field(o, "timings"), isUrl);
    forall j | 0 <= j < |ext|
      ensures Accepts(ext[j].schema, Field(o, ext[j].key), isUrl) <==> SeeVerboseAt(j, o)
    {
      if j == 0 {} else if j == 1 {} else if j == 2 {} else if j == 3 {} else if j == 4 {} else { assert j == 5; }
    }
  }

  lemma SeeVerboseByPosition(v: Value)
    requires IsObject(v)
    ensures IsSeeResponseVerbose(v) <==> forall j :: 0 <= j < 6 ==> SeeVerboseAt(j, Props(v))
  {
    if forall j :: 0 <= j < 6 ==> SeeVerboseAt(j, Props(v)) {
      assert SeeVerboseAt(0, Props(v)) && SeeVerboseAt(1, Props(v)) && SeeVerboseAt(2, Props(v));
      assert SeeVerboseAt(3, Props(v)) && SeeVerboseAt(4, Props(v)) && SeeVerboseAt(5, Props(v));
    }
    if IsSeeResponseVerbose(v) {
      forall j | 0 <= j < 6 ensures SeeVerboseAt(j, Props(v)) {
        if j == 0 {} else if j == 1 {} else if j == 2 {} else if j == 3 {} else if j == 4 {} else { assert j == 5; }
      }
    }
  }

  /**
   * A verbose see response is accepted exactly when it has a string `content` and `model`,
   * numeric timings, and the three numeric token counters.
   */
  lemma SeeResponseVerboseSchemaMeaning(v: Value, isUrl: string -> bool)
    ensures Accepts(SeeResponseVerboseSchema, v, isUrl) <==> IsSeeResponseVerbose(v)
  {
    SeeResponseVerboseShape();
    assert SeeResponseVerboseSchema == ZObject(SeeResponseVerboseExtension);
    if IsObject(v) {
      SeeVerboseFields(Props(v), isUrl);
      SeeVerboseByPosition(v);
    }
  }

  /**
   * Every value the verbose schema accepts, the minimal schema accepts too: `.extend` keeps
   * `content` a string.
   */
  lemma SeeVerboseIsMinimal(v: Value, isUrl: string -> bool)
    requires Accepts(SeeResponseVerboseSchema, v, isUrl)
    ensures Accepts(SeeResponseSchema, v, isUrl)
  {
    ExtendKeepsBase(SeeResponseShape, SeeResponseVerboseExtension, v, isUrl);
  }

  /** A streamed event is accepted exactly when `content` is a string and `stop` a boolean. */
  lemma SeeStreamingSchemaMeaning(v: Value, isUrl: string -> bool)
    ensures Accepts(SeeStreamingResponseSchema, v, isUrl) <==> IsSeeStreamingResponse(v)
  {
    var shape := SeeStreamingResponseSchema.shape;
    if Accepts(SeeStreamingResponseSchema, v, isUrl) {
      assert Accepts(shape[0].schema, Field(Props(v), shape[0].key), isUrl);
      assert Accepts(shape[1].schema, Field(Props(v), shape[1].key), isUrl);
    }
  }
}
