/**
 * The transcription ("hear") declarations: the upload a request may carry, the request
 * options, and the minimal and verbose response schemas.
 *
 * Whether the host defines a global `File` class is decided when the declarations are
 * evaluated; it is the parameter `fileDefined` of the schemas that depend on it.
 */
module Hear {
  import opened Wrappers
  import opened JsValue
  import opened Zod

  /** The largest upload accepted, in bytes (25 MiB). */
  const HEAR_SIZE_LIMIT: nat := 25 * 1024 * 1024

  const MAX_SIZE_MESSAGE: string := "Max file size is 25MB"
  const AUDIO_TYPE_MESSAGE: string := "File must be an audio file"
  const AUDIO_PREFIX: string := "audio/"

  const HEAR_MODELS: seq<string> := ["whisper-tiny"]
  const RESPONSE_FORMATS: seq<string> := ["json", "text", "srt", "verbose_json", "vtt"]
  const TASKS: seq<string> := ["transcribe", "translate"]

  // Declared option defaults.
  const DEFAULT_MODEL: string := "whisper-tiny"
  const DEFAULT_RESPONSE_FORMAT: string := "json"
  const DEFAULT_TEMPERATURE: real := 0.0
  const DEFAULT_TEMPERATURE_INC: real := 0.2

  /**
   * The upload: a `Buffer`, or, where `File` exists, a `File` of at most 25 MiB whose type
   * starts with "audio/"; where `File` does not exist the second alternative is `never`.
   * The whole field may be absent.
   */
  function FileSchema(fileDefined: bool): Schema {
    ZOptional(ZUnion(
      ZInstanceOfBuffer,
      if fileDefined then
        ZRefine(ZRefine(ZInstanceOfFile, SizeAtMost(HEAR_SIZE_LIMIT), MAX_SIZE_MESSAGE),
                TypeStartsWith(AUDIO_PREFIX), AUDIO_TYPE_MESSAGE)
      else ZNever))
  }

  function HearRequestSchema(fileDefined: bool): Schema {
    ZObject([
      Prop("file", FileSchema(fileDefined)),
      Prop("model", ZOptional(ZDefault(ZEnum(HEAR_MODELS), Str(DEFAULT_MODEL)))),
      Prop("language", ZOptional(ZString)),
      Prop("prompt", ZOptional(ZString)),
      Prop("response_format", ZOptional(ZDefault(ZEnum(RESPONSE_FORMATS), Str(DEFAULT_RESPONSE_FORMAT)))),
      Prop("temperature", ZOptional(ZDefault(ZNumber, Num(DEFAULT_TEMPERATURE)))),
      Prop("temperature_inc", ZOptional(ZDefault(ZNumber, Num(DEFAULT_TEMPERATURE_INC))))
    ])
  }

  const HearResponseSchema: Schema := ZObject([Prop("text", ZString)])

  const HearResponseWordSchema: Schema := ZObject([
    Prop("word", ZString),
    Prop("start", ZNumber),
    Prop("end", ZNumber),
    Prop("t_dtw", ZNumber),
    Prop("probability", ZNumber)
  ])

  const HearResponseSegmentSchema: Schema := ZObject([
    Prop("id", ZNumber),
    Prop("text", ZString),
    Prop("start", ZNumber),
    Prop("end", ZNumber),
    Prop("tokens", ZArray(ZNumber)),
    Prop("words", ZArray(HearResponseWordSchema)),
    Prop("temperature", ZNumber),
    Prop("avg_logprob", ZNumber)
  ])

  const HearResponseVerboseSchema: Schema := ZObject([
    Prop("task", ZEnum(TASKS)),
    Prop("language", ZString),
    Prop("duration", ZNumber),
    Prop("text", ZString),
    Prop("segments", ZArray(HearResponseSegmentSchema))
  ])

  // Reference definitions of the shapes, written field by field.

  /** A field that may be absent (undefined) and otherwise must pass `present`. */
  predicate AbsentOr(v: Value, present: bool) {
    v.Undefined? || present
  }

  /** An audio file the upload rules allow: at most 25 MiB, with an "audio/..." type. */
  predicate IsAllowedAudioFile(v: Value) {
    v.File? && v.size <= HEAR_SIZE_LIMIT && AUDIO_PREFIX <= v.mime
  }

  predicate IsHearFile(v: Value, fileDefined: bool) {
    v.Undefined? || v.Buffer? || (fileDefined && IsAllowedAudioFile(v))
  }

  /**
   * The issue reported for an upload: none for an allowed one; for a `File` where `File`
   * exists, the size message when it is too large and otherwise the type message; and an
   * invalid-union issue for anything else.
   */
  function ExpectedFileIssue(v: Value, fileDefined: bool): Option<IssueCode> {
    if IsHearFile(v, fileDefined) then None
    else if fileDefined && v.File? then
      (if v.size > HEAR_SIZE_LIMIT then Some(Custom(MAX_SIZE_MESSAGE)) else Some(Custom(AUDIO_TYPE_MESSAGE)))
    else Some(InvalidUnion)
  }

  predicate IsNumberArray(v: Value) {
    v.Arr? && forall i :: 0 <= i < |v.items| ==> v.items[i].Num?
  }

  predicate IsHearRequest(v: Value, fileDefined: bool) {
    && IsObject(v)
    && var o := Props(v);
    && IsHearFile(Field(o, "file"), fileDefined)
    && AbsentOr(Field(o, "model"), Field(o, "model") == Str("whisper-tiny"))
    && AbsentOr(Field(o, "language"), Field(o, "language").Str?)
    && AbsentOr(Field(o, "prompt"), Field(o, "prompt").Str?)
    && AbsentOr(Field(o, "response_format"),
                Field(o, "response_format").Str? && Field(o, "response_format").s in {"json", "text", "srt", "verbose_json", "vtt"})
    && AbsentOr(Field(o, "temperature"), Field(o, "temperature").Num?)
    && AbsentOr(Field(o, "temperature_inc"), Field(o, "temperature_inc").Num?)
  }

  predicate IsHearResponse(v: Value) {
    IsObject(v) && Field(Props(v), "text").Str?
  }

  predicate IsWord(v: Value) {
    && IsObject(v)
    && Field(Props(v), "word").Str?
    && Field(Props(v), "start").Num?
    && Field(Props(v), "end").Num?
    && Field(Props(v), "t_dtw").Num?
    && Field(Props(v), "probability").Num?
  }

  predicate IsSegment(v: Value) {
    && IsObject(v)
    && var o := Props(v);
    && Field(o, "id").Num?
    && Field(o, "text").Str?
    && Field(o, "start").Num?
    && Field(o, "end").Num?
    && IsNumberArray(Field(o, "tokens"))
    && Field(o, "words").Arr?
    && (forall i :: 0 <= i < |Field(o, "words").items| ==> IsWord(Field(o, "words").items[i]))
    && Field(o, "temperature").Num?
    && Field(o, "avg_logprob").Num?
  }

  predicate IsHearResponseVerbose(v: Value) {
    && IsObject(v)
    && var o := Props(v);
    && Field(o, "task").Str? && Field(o, "task").s in {"transcribe", "translate"}
    && Field(o, "language").Str?
    && Field(o, "duration").Num?
    && Field(o, "text").Str?
    && Field(o, "segments").Arr?
    && forall i :: 0 <= i < |Field(o, "segments").items| ==> IsSegment(Field(o, "segments").items[i])
  }
}

/** What the hear schemas accept and report, stated against the reference definitions in `Hear`. */
module HearProperties {
  import opened Wrappers
  import opened JsValue
  import opened Zod
  import opened Hear

  /**
   * The upload field accepts exactly an absent file, any `Buffer`, and, where `File`
   * exists, a `File` of at most 25 MiB whose type starts with "audio/".
   */
  lemma FileSchemaMeaning(v: Value, fileDefined: bool, isUrl: string -> bool)
    ensures Accepts(FileSchema(fileDefined), v, isUrl) <==> IsHearFile(v, fileDefined)
  {
    CheckAgreesWithAccepts(FileSchema(fileDefined), v, [], isUrl);
    FileSchemaIssue(v, fileDefined, [], isUrl);
  }

  /**
   * The first issue reported for an upload: a `File` over the limit gets "Max file size is
   * 25MB" (checked before the type), an oversized-free non-audio `File` gets "File must be
   * an audio file", and everything else that fails gets an invalid-union issue at the
   * field's own path.
   */
  lemma FileSchemaIssue(v: Value, fileDefined: bool, path: seq<PathSegment>, isUrl: string -> bool)
    ensures Check(FileSchema(fileDefined), v, path, isUrl) ==
      match ExpectedFileIssue(v, fileDefined)
      case None => None
      case Some(code) => Some(Issue(path, code))
  {
    if fileDefined {
      FileIssueWithFileClass(v, path, isUrl);
    } else {
      FileIssueWithoutFileClass(v, path, isUrl);
    }
  }

  lemma FileIssueWithoutFileClass(v: Value, path: seq<PathSegment>, isUrl: string -> bool)
    ensures Check(FileSchema(false), v, path, isUrl) ==
      match ExpectedFileIssue(v, false)
      case None => None
      case Some(code) => Some(Issue(path, code))
  {
    var union := FileSchema(false).inner;
    if !v.Undefined? && !v.Buffer? {
      assert Check(union.left, v, path, isUrl) == Some(Issue(path, NotInstance("Buffer")));
    }
  }

  lemma FileIssueWithFileClass(v: Value, path: seq<PathSegment>, isUrl: string -> bool)
    ensures Check(FileSchema(true), v, path, isUrl) ==
      match ExpectedFileIssue(v, true)
      case None => None
      case Some(code) => Some(Issue(path, code))
  {
    if v.File? {
      UploadedFileIssue(v, path, isUrl);
    } else if !v.Undefined? && !v.Buffer? {
      OtherUploadIssue(v, path, isUrl);
    }
  }

  /** Where `File` exists, a value that is neither a `Buffer` nor a `File` matches no alternative. */
  lemma OtherUploadIssue(v: Value, path: seq<PathSegment>, isUrl: string -> bool)
    requires !v.Undefined? && !v.Buffer? && !v.File?
    ensures Check(FileSchema(true), v, path, isUrl) == Some(Issue(path, InvalidUnion))
  {
    var union := FileSchema(true).inner;
    assert Check(union.left, v, path, isUrl) == Some(Issue(path, NotInstance("Buffer")));
    NotFileFailsFast(v, path, isUrl);
  }

  /** A value that is not a `File` fails the refined alternative at `instanceof`, before either refinement. */
  lemma NotFileFailsFast(v: Value, path: seq<PathSegment>, isUrl: string -> bool)
    requires !v.File?
    ensures Check(FileSchema(true).inner.right, v, path, isUrl) == Some(Issue(path, NotInstance("File")))
  {
    assert Check(FileSchema(true).inner.right.inner, v, path, isUrl) == Some(Issue(path, NotInstance("File")));
  }

  /** Where `File` exists, a `File` upload is checked for its size before its type. */
  lemma UploadedFileIssue(v: Value, path: seq<PathSegment>, isUrl: string -> bool)
    requires v.File?
    ensures Check(FileSchema(true), v, path, isUrl) ==
      match ExpectedFileIssue(v, true)
      case None => None
      case Some(code) => Some(Issue(path, code))
  {
    var union := FileSchema(true).inner;
    var typed := union.right;
    var sized := typed.inner;
    assert Check(sized.inner, v, path, isUrl).None?;
    assert Check(union.left, v, path, isUrl) == Some(Issue(path, NotInstance("Buffer")));
    if v.size > HEAR_SIZE_LIMIT {
      assert Check(typed, v, path, isUrl) == Some(Issue(path, Custom(MAX_SIZE_MESSAGE)));
    } else if !(AUDIO_PREFIX <= v.mime) {
      assert Check(typed, v, path, isUrl) == Some(Issue(path, Custom(AUDIO_TYPE_MESSAGE)));
    } else {
      assert Check(typed, v, path, isUrl).None?;
    }
  }

  /** An upload of exactly 25 MiB with an audio type passes; one byte more is refused with the size message. */
  lemma SizeLimitBoundary(mime: string, path: seq<PathSegment>, isUrl: string -> bool)
    requires AUDIO_PREFIX <= mime
    ensures Accepts(FileSchema(true), File(26214400, mime), isUrl)
    ensures Check(FileSchema(true), File(26214401, mime), path, isUrl) == Some(Issue(path, Custom("Max file size is 25MB")))
  {
    FileSchemaMeaning(File(26214400, mime), true, isUrl);
    FileSchemaIssue(File(26214401, mime), true, path, isUrl);
  }

  /** Where `File` does not exist, even a small audio `File` is refused as matching no alternative. */
  lemma FileRefusedWithoutFileClass(size: nat, mime: string, path: seq<PathSegment>, isUrl: string -> bool)
    ensures Check(FileSchema(false), File(size, mime), path, isUrl) == Some(Issue(path, InvalidUnion))
  {
    FileSchemaIssue(File(size, mime), false, path, isUrl);
  }

  /** What the option declared at position `j` of the request schema demands of `o`. */
  predicate HearOptionAt(j: nat, o: map<string, Value>, fileDefined: bool) {
    match j
    case 0 => IsHearFile(Field(o, "file"), fileDefined)
    case 1 => AbsentOr(Field(o, "model"), Field(o, "model") == Str("whisper-tiny"))
    case 2 => AbsentOr(Field(o, "language"), Field(o, "language").Str?)
    case 3 => AbsentOr(Field(o, "prompt"), Field(o, "prompt").Str?)
    case 4 => AbsentOr(Field(o, "response_format"),
                       Field(o, "response_format").Str? && Field(o, "response_format").s in {"json", "text", "srt", "verbose_json", "vtt"})
    case 5 => AbsentOr(Field(o, "temperature"), Field(o, "temperature").Num?)
    case _ => AbsentOr(Field(o, "temperature_inc"), Field(o, "temperature_inc").Num?)
  }

  lemma HearOptionFieldsA(o: map<string, Value>, fileDefined: bool, isUrl: string -> bool)
    ensures forall j :: 0 <= j < 4 ==>
      (Accepts(HearRequestSchema(fileDefined).shape[j].schema, Field(o, HearRequestSchema(fileDefined).shape[j].key), isUrl)
       <==> HearOptionAt(j, o, fileDefined))
  {
    var shape := HearRequestSchema(fileDefined).shape;
    forall j | 0 <= j < 4
      ensures Accepts(shape[j].schema, Field(o, shape[j].key), isUrl) <==> HearOptionAt(j, o, fileDefined)
    {
      if j == 0 {
        FileSchemaMeaning(Field(o, "file"), fileDefined, isUrl);
      } else if j == 1 {
        if Field(o, "model").Str? && Field(o, "model").s in HEAR_MODELS {
          assert Field(o, "model").s == "whisper-tiny";
        }
      } else if j == 2 {
      } else {
        assert j == 3;
      }
    }
  }

  /** `response_format` passes exactly when absent or one of the five format names. */
  lemma ResponseFormatField(f: Value, isUrl: string -> bool)
    ensures Accepts(ZOptional(ZDefault(ZEnum(RESPONSE_FORMATS), Str(DEFAULT_RESPONSE_FORMAT))), f, isUrl) <==>
            AbsentOr(f, f.Str? && f.s in {"json", "text", "srt", "verbose_json", "vtt"})
  {
    if f.Str? {
      assert f.s in RESPONSE_FORMATS <==> f.s in {"json", "text", "srt", "verbose_json", "vtt"};
    }
  }

  lemma HearOptionFieldsB(o: map<string, Value>, fileDefined: bool, isUrl: string -> bool)
    ensures forall j :: 4 <= j < 7 ==>
      (Accepts(HearRequestSchema(fileDefined).shape[j].schema, Field(o, HearRequestSchema(fileDefined).shape[j].key), isUrl)
       <==> HearOptionAt(j, o, fileDefined))
  {
    var shape := HearRequestSchema(fileDefined).shape;
    forall j | 4 <= j < 7
      ensures Accepts(shape[j].schema, Field(o, shape[j].key), isUrl) <==> HearOptionAt(j, o, fileDefined)
    {
      if j == 4 {
        ResponseFormatField(Field(o, "response_format"), isUrl);
      } else if j == 5 {
      } else {
        assert j == 6;
      }
    }
  }

  lemma HearOptionsByPosition(v: Value, fileDefined: bool)
    requires IsObject(v)
    ensures IsHearRequest(v, fileDefined) <==> forall j :: 0 <= j < 7 ==> HearOptionAt(j, Props(v), fileDefined)
  {
    if forall j :: 0 <= j < 7 ==> HearOptionAt(j, Props(v), fileDefined) {
      assert HearOptionAt(0, Props(v), fileDefined) && HearOptionAt(1, Props(v), fileDefined);
      assert HearOptionAt(2, Props(v), fileDefined) && HearOptionAt(3, Props(v), fileDefined);
      assert HearOptionAt(4, Props(v), fileDefined) && HearOptionAt(5, Props(v), fileDefined);
      assert HearOptionAt(6, Props(v), fileDefined);
    }
    if IsHearRequest(v, fileDefined) {
      forall j | 0 <= j < 7 ensures HearOptionAt(j, Props(v), fileDefined) {
        if j == 0 {} else if j == 1 {} else if j == 2 {} else if j == 3 {} else if j == 4 {} else if j == 5 {} else { assert j == 6; }
      }
    }
  }

  /**
   * The request schema accepts exactly an object whose upload passes the file rule, whose
   * `model` is absent or "whisper-tiny", whose `language` and `prompt` are absent or strings,
   * whose `response_format` is absent or one of json, text, srt, verbose_json, vtt, and whose
   * two temperatures are absent or numbers. Every field may be absent, the file included.
   */
  lemma HearRequestSchemaMeaning(v: Value, fileDefined: bool, isUrl: string -> bool)
    ensures Accepts(HearRequestSchema(fileDefined), v, isUrl) <==> IsHearRequest(v, fileDefined)
  {
    if IsObject(v) {
      HearOptionFieldsA(Props(v), fileDefined, isUrl);
      HearOptionFieldsB(Props(v), fileDefined, isUrl);
      HearOptionsByPosition(v, fileDefined);
    }
  }

  /**
   * Every request field is optional, so a `Buffer` or a `File` passed as the whole request
   * is accepted: it reads as an object in which every declared field is absent.
   */
  lemma HearRequestAcceptsBareUpload(v: Value, fileDefined: bool, isUrl: string -> bool)
    requires v.Buffer? || v.File?
    ensures Accepts(HearRequestSchema(fileDefined), v, isUrl)
  {
    HearRequestSchemaMeaning(v, fileDefined, isUrl);
  }

  /** The declared defaults (model whisper-tiny, format json, temperatures 0 and 0.2) pass their own fields. */
  lemma HearOptionDefaultsConform(fileDefined: bool, isUrl: string -> bool)
    ensures forall j :: 0 <= j < |HearRequestSchema(fileDefined).shape| ==>
      match DeclaredDefault(HearRequestSchema(fileDefined).shape[j].schema)
      case Some(d) => Accepts(HearRequestSchema(fileDefined).shape[j].schema, d, isUrl)
      case None => true
  {
    var shape := HearRequestSchema(fileDefined).shape;
    forall j | 0 <= j < |shape|
      ensures match DeclaredDefault(shape[j].schema)
              case Some(d) => Accepts(shape[j].schema, d, isUrl)
              case None => true
    {
      if j == 0 {} else if j == 1 {} else if j == 2 {} else if j == 3 {} else if j == 4 {} else if j == 5 {} else { assert j == 6; }
    }
  }

  /** A minimal transcription is accepted exactly when `text` is a string. */
  lemma HearResponseSchemaMeaning(v: Value, isUrl: string -> bool)
    ensures Accepts(HearResponseSchema, v, isUrl) <==> IsHearResponse(v)
  {
    var shape := HearResponseSchema.shape;
    if IsObject(v) {
      assert Accepts(HearResponseSchema, v, isUrl) <==> Accepts(shape[0].schema, Field(Props(v), shape[0].key), isUrl);
    }
  }

  lemma WordSchemaMeaning(v: Value, isUrl: string -> bool)
    ensures Accepts(HearResponseWordSchema, v, isUrl) <==> IsWord(v)
  {
    var shape := HearResponseWordSchema.shape;
    if Accepts(HearResponseWordSchema, v, isUrl) {
      assert Accepts(shape[0].schema, Field(Props(v), shape[0].key), isUrl);
      assert Accepts(shape[1].schema, Field(Props(v), shape[1].key), isUrl);
      assert Accepts(shape[2].schema, Field(Props(v), shape[2].key), isUrl);
      assert Accepts(shape[3].schema, Field(Props(v), shape[3].key), isUrl);
      assert Accepts(shape[4].schema, Field(Props(v), shape[4].key), isUrl);
    }
  }

  /** An array passes `z.array(element)` exactly when each of its items passes `element`. */
  lemma WordsMeaning(v: Value, isUrl: string -> bool)
    ensures Accepts(ZArray(HearResponseWordSchema), v, isUrl) <==>
            v.Arr? && forall i :: 0 <= i < |v.items| ==> IsWord(v.items[i])
  {
    if v.Arr? {
      forall i | 0 <= i < |v.items| ensures Accepts(HearResponseWordSchema, v.items[i], isUrl) <==> IsWord(v.items[i]) {
        WordSchemaMeaning(v.items[i], isUrl);
      }
    }
  }

  /** What the field declared at position `j` of the segment schema demands of `o`. */
  predicate SegmentFieldAt(j: nat, o: map<string, Value>) {
    match j
    case 0 => Field(o, "id").Num?
    case 1 => Field(o, "text").Str?
    case 2 => Field(o, "start").Num?
    case 3 => Field(o, "end").Num?
    case 4 => IsNumberArray(Field(o, "tokens"))
    case 5 => Field(o, "words").Arr? && forall i :: 0 <= i < |Field(o, "words").items| ==> IsWord(Field(o, "words").items[i])
    case 6 => Field(o, "temperature").Num?
    case _ => Field(o, "avg_logprob").Num?
  }

  lemma SegmentFields(o: map<string, Value>, isUrl: string -> bool)
    ensures forall j :: 0 <= j < 8 ==>
      (Accepts(HearResponseSegmentSchema.shape[j].schema, Field(o, HearResponseSegmentSchema.shape[j].key), isUrl)
       <==> SegmentFieldAt(j, o))
  {
    var shape := HearResponseSegmentSchema.shape;
    WordsMeaning(Field(o, "words"), isUrl);
    forall j | 0 <= j < 8
      ensures Accepts(shape[j].schema, Field(o, shape[j].key), isUrl) <==> SegmentFieldAt(j, o)
    {
      if j == 0 {} else if j == 1 {} else if j == 2 {} else if j == 3 {} else if j == 4 {} else if j == 5 {} else if j == 6 {} else { assert j == 7; }
    }
  }

  lemma SegmentByPosition(v: Value)
    requires IsObject(v)
    ensures IsSegment(v) <==> forall j :: 0 <= j < 8 ==> SegmentFieldAt(j, Props(v))
  {
    if forall j :: 0 <= j < 8 ==> SegmentFieldAt(j, Props(v)) {
      assert SegmentFieldAt(0, Props(v)) && SegmentFieldAt(1, Props(v)) && SegmentFieldAt(2, Props(v));
      assert SegmentFieldAt(3, Props(v)) && SegmentFieldAt(4, Props(v)) && SegmentFieldAt(5, Props(v));
      assert SegmentFieldAt(6, Props(v)) && SegmentFieldAt(7, Props(v));
    }
    if IsSegment(v) {
      forall j | 0 <= j < 8 ensures SegmentFieldAt(j, Props(v)) {
        if j == 0 {} else if j == 1 {} else if j == 2 {} else if j == 3 {} else if j == 4 {} else if j == 5 {} else if j == 6 {} else { assert j == 7; }
      }
    }
  }

  /**
   * A segment is accepted exactly when its id, start, end, temperature and avg_logprob are
   * numbers, its text a string, its tokens an array of numbers and its words an array of
   * words.
   */
  lemma SegmentSchemaMeaning(v: Value, isUrl: string -> bool)
    ensures Accepts(HearResponseSegmentSchema, v, isUrl) <==> IsSegment(v)
  {
    if IsObject(v) {
      SegmentFields(Props(v), isUrl);
      SegmentByPosition(v);
    }
  }

  /** What the field declared at position `j` of the verbose transcription schema demands of `o`. */
  predicate VerboseFieldAt(j: nat, o: map<string, Value>) {
    match j
    case 0 => Field(o, "task").Str? && Field(o, "task").s in {"transcribe", "translate"}
    case 1 => Field(o, "language").Str?
    case 2 => Field(o, "duration").Num?
    case 3 => Field(o, "text").Str?
    case _ => Field(o, "segments").Arr? && forall i :: 0 <= i < |Field(o, "segments").items| ==> IsSegment(Field(o, "segments").items[i])
  }

  lemma SegmentsMeaning(v: Value, isUrl: string -> bool)
    ensures Accepts(ZArray(HearResponseSegmentSchema), v, isUrl) <==>
            v.Arr? && forall i :: 0 <= i < |v.items| ==> IsSegment(v.items[i])
  {
    if v.Arr? {
      forall i | 0 <= i < |v.items| ensures Accepts(HearResponseSegmentSchema, v.items[i], isUrl) <==> IsSegment(v.items[i]) {
        SegmentSchemaMeaning(v.items[i], isUrl);
      }
    }
  }

  lemma VerboseFields(o: map<string, Value>, isUrl: string -> bool)
    ensures forall j :: 0 <= j < 5 ==>
      (Accepts(HearResponseVerboseSchema.shape[j].schema, Field(o, HearResponseVerboseSchema.shape[j].key), isUrl)
       <==> VerboseFieldAt(j, o))
  {
    var shape := HearResponseVerboseSchema.shape;
    SegmentsMeaning(Field(o, "segments"), isUrl);
    forall j | 0 <= j < 5
      ensures Accepts(shape[j].schema, Field(o, shape[j].key), isUrl) <==> VerboseFieldAt(j, o)
    {
      if j == 0 {
        var task := Field(o, "task");
        if task.Str? {
          assert task.s in TASKS <==> task.s in {"transcribe", "translate"};
        }
      } else if j == 1 {} else if j == 2 {} else if j == 3 {} else { assert j == 4; }
    }
  }

  lemma VerboseByPosition(v: Value)
    requires IsObject(v)
    ensures IsHearResponseVerbose(v) <==> forall j :: 0 <= j < 5 ==> VerboseFieldAt(j, Props(v))
  {
    if forall j :: 0 <= j < 5 ==> VerboseFieldAt(j, Props(v)) {
      assert VerboseFieldAt(0, Props(v)) && VerboseFieldAt(1, Props(v)) && VerboseFieldAt(2, Props(v));
      assert VerboseFieldAt(3, Props(v)) && VerboseFieldAt(4, Props(v));
    }
    if IsHearResponseVerbose(v) {
      forall j | 0 <= j < 5 ensures VerboseFieldAt(j, Props(v)) {
        if j == 0 {} else if j == 1 {} else if j == 2 {} else if j == 3 {} else { assert j == 4; }
      }
    }
  }

  /**
   * A verbose transcription is accepted exactly when its task is transcribe or translate,
   * its language and text are strings, its duration a number and its segments an array of
   * segments.
   */
  lemma HearResponseVerboseSchemaMeaning(v: Value, isUrl: string -> bool)
    ensures Accepts(HearResponseVerboseSchema, v, isUrl) <==> IsHearResponseVerbose(v)
  {
    if IsObject(v) {
      VerboseFields(Props(v), isUrl);
      VerboseByPosition(v);
    }
  }

  /** Every verbose transcription is also a minimal one: both declare `text` a string. */
  lemma HearVerboseIsMinimal(v: Value, isUrl: string -> bool)
    requires Accepts(HearResponseVerboseSchema, v, isUrl)
    ensures Accepts(HearResponseSchema, v, isUrl)
  {
    HearResponseVerboseSchemaMeaning(v, isUrl);
    HearResponseSchemaMeaning(v, isUrl);
  }
}
