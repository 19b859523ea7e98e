/**
 * The fragment of the zod schema library that the request and response declarations use,
 * as a first-order schema language. A declaration such as
 * `z.object({ content: z.string() })` becomes the value
 * `ZObject([Prop("content", ZString)])`; `.optional()`, `.default(x)`, `.refine(p, msg)`,
 * `z.union`, `z.instanceof` and `.extend` become the constructors and the function below.
 * `.describe(...)` does not change what a schema accepts and has no counterpart.
 *
 * Two readings of a schema are given: `Accepts`, whether a value passes, and `Check`, the
 * first issue zod reports for it (where it is and what kind of failure it is).
 * `z.string().url()` depends on a URL parser that is not part of this model; every member
 * takes it as the parameter `isUrl`.
 */
module Zod {
  import opened Wrappers
  import opened JsValue

  /** The two `.refine` predicates the declarations use; both read a `File`. */
  datatype Rule =
    | SizeAtMost(limit: nat)        // f.size <= limit
    | TypeStartsWith(prefix: string) // f.type.startsWith(prefix)

  datatype Schema =
    | ZString
    | ZUrl
    | ZNumber
    | ZBoolean
    | ZNever
    | ZEnum(options: seq<string>)
    | ZArray(element: Schema)
    | ZObject(shape: seq<Prop>)
    | ZOptional(inner: Schema)
    | ZDefault(inner: Schema, fallback: Value)
    | ZUnion(left: Schema, right: Schema)
    | ZInstanceOfBuffer
    | ZInstanceOfFile
    | ZRefine(inner: Schema, rule: Rule, message: string)

  /** One `key: schema` entry of an object shape, in declaration order. */
  datatype Prop = Prop(key: string, schema: Schema)

  datatype PathSegment = Key(key: string) | Index(index: nat)

  datatype IssueCode =
    | InvalidType
    | InvalidUrl
    | InvalidEnumValue
    | InvalidUnion
    | NotInstance(className: string)  // fatal: stops the checks stacked on top of it
    | Custom(message: string)         // a failed refinement: the value had the right type

  datatype Issue = Issue(path: seq<PathSegment>, code: IssueCode)

  predicate RuleHolds(rule: Rule, v: Value) {
    match v
    case File(size, mime) =>
      (match rule
       case SizeAtMost(limit) => size <= limit
       case TypeStartsWith(prefix) => prefix <= mime)
    case _ => false
  }

  /** Whether `v` passes schema `s`. Keys an object shape does not name are ignored. */
  predicate Accepts(s: Schema, v: Value, isUrl: string -> bool)
    decreases s
  {
    match s
    case ZString => v.Str?
    case ZUrl => v.Str? && isUrl(v.s)
    case ZNumber => v.Num?
    case ZBoolean => v.Bool?
    case ZNever => false
    case ZEnum(options) => v.Str? && v.s in options
    case ZArray(element) =>
      v.Arr? && forall i :: 0 <= i < |v.items| ==> Accepts(element, v.items[i], isUrl)
    case ZObject(shape) =>
      IsObject(v) && forall j :: 0 <= j < |shape| ==> Accepts(shape[j].schema, Field(Props(v), shape[j].key), isUrl)
    case ZOptional(inner) => v.Undefined? || Accepts(inner, v, isUrl)
    case ZDefault(inner, fallback) => Accepts(inner, if v.Undefined? then fallback else v, isUrl)
    case ZUnion(left, right) => Accepts(left, v, isUrl) || Accepts(right, v, isUrl)
    case ZInstanceOfBuffer => v.Buffer?
    case ZInstanceOfFile => v.File?
    case ZRefine(inner, rule, _) => Accepts(inner, v, isUrl) && RuleHolds(rule, v)
  }

  /**
   * The first issue zod reports when `v`, found at `path`, is checked against `s`, or None.
   * Fields are checked in declaration order and array items in index order. A union reports
   * the issue of an alternative whose first issue is a failed refinement, and otherwise an
   * invalid-union issue at the union's own path. This is how zod 3 reports the one union
   * declared here, whose alternatives are a single class check each, possibly refined.
   */
  function Check(s: Schema, v: Value, path: seq<PathSegment>, isUrl: string -> bool): (r: Option<Issue>)
    ensures r.Some? ==> path <= r.value.path
    decreases s, 1
  {
    match s
    case ZString => if v.Str? then None else Some(Issue(path, InvalidType))
    case ZUrl =>
      if !v.Str? then Some(Issue(path, InvalidType))
      else if isUrl(v.s) then None
      else Some(Issue(path, InvalidUrl))
    case ZNumber => if v.Num? then None else Some(Issue(path, InvalidType))
    case ZBoolean => if v.Bool? then None else Some(Issue(path, InvalidType))
    case ZNever => Some(Issue(path, InvalidType))
    case ZEnum(options) =>
      if !v.Str? then Some(Issue(path, InvalidType))
      else if v.s in options then None
      else Some(Issue(path, InvalidEnumValue))
    case ZArray(_) => if v.Arr? then CheckItems(s, v.items, 0, path, isUrl) else Some(Issue(path, InvalidType))
    case ZObject(_) => if IsObject(v) then CheckProps(s, Props(v), 0, path, isUrl) else Some(Issue(path, InvalidType))
    case ZOptional(inner) => if v.Undefined? then None else Check(inner, v, path, isUrl)
    case ZDefault(inner, fallback) => Check(inner, if v.Undefined? then fallback else v, path, isUrl)
    case ZUnion(left, right) =>
      var l := Check(left, v, path, isUrl);
      var r := Check(right, v, path, isUrl);
      if l.None? || r.None? then None
      else if l.value.code.Custom? then l
      else if r.value.code.Custom? then r
      else Some(Issue(path, InvalidUnion))
    case ZInstanceOfBuffer => if v.Buffer? then None else Some(Issue(path, NotInstance("Buffer")))
    case ZInstanceOfFile => if v.File? then None else Some(Issue(path, NotInstance("File")))
    case ZRefine(inner, rule, message) =>
      var first := Check(inner, v, path, isUrl);
      if first.Some? then first
      else if RuleHolds(rule, v) then None
      else Some(Issue(path, Custom(message)))
  }

  /** The first issue among `items[i..]`, each checked against the element schema of `s`. */
  function CheckItems(s: Schema, items: seq<Value>, i: nat, path: seq<PathSegment>, isUrl: string -> bool): (r: Option<Issue>)
    requires s.ZArray? && i <= |items|
    ensures r.Some? ==> path <= r.value.path
    decreases s, 0, |items| - i
  {
    if i == |items| then None
    else
      var first := Check(s.element, items[i], path + [Index(i)], isUrl);
      if first.Some? then first else CheckItems(s, items, i + 1, path, isUrl)
  }

  /** The first issue among the fields `s.shape[j..]` of the object `props`. */
  function CheckProps(s: Schema, props: map<string, Value>, j: nat, path: seq<PathSegment>, isUrl: string -> bool): (r: Option<Issue>)
    requires s.ZObject? && j <= |s.shape|
    ensures r.Some? ==> path <= r.value.path
    decreases s, 0, |s.shape| - j
  {
    if j == |s.shape| then None
    else
      var p := s.shape[j];
      var first := Check(p.schema, Field(props, p.key), path + [Key(p.key)], isUrl);
      if first.Some? then first else CheckProps(s, props, j + 1, path, isUrl)
  }

  /** Check reports no issue exactly when the value is accepted, wherever it is found. */
  lemma {:induction false} CheckAgreesWithAccepts(s: Schema, v: Value, path: seq<PathSegment>, isUrl: string -> bool)
    ensures Check(s, v, path, isUrl).None? <==> Accepts(s, v, isUrl)
    decreases s, 1
  {
    match s
    case ZArray(element) =>
      if v.Arr? {
        CheckItemsAgree(s, v.items, 0, path, isUrl);
      }
    case ZObject(shape) =>
      if IsObject(v) {
        CheckPropsAgree(s, Props(v), 0, path, isUrl);
      }
    case ZOptional(inner) =>
      CheckAgreesWithAccepts(inner, v, path, isUrl);
    case ZDefault(inner, fallback) =>
      CheckAgreesWithAccepts(inner, if v.Undefined? then fallback else v, path, isUrl);
    case ZUnion(left, right) =>
      CheckAgreesWithAccepts(left, v, path, isUrl);
      CheckAgreesWithAccepts(right, v, path, isUrl);
    case ZRefine(inner, rule, message) =>
      CheckAgreesWithAccepts(inner, v, path, isUrl);
    case _ =>
  }

  lemma {:induction false} CheckItemsAgree(s: Schema, items: seq<Value>, i: nat, path: seq<PathSegment>, isUrl: string -> bool)
    requires s.ZArray? && i <= |items|
    ensures CheckItems(s, items, i, path, isUrl).None? <==>
            forall k :: i <= k < |items| ==> Accepts(s.element, items[k], isUrl)
    decreases s, 0, |items| - i
  {
    if i < |items| {
      CheckAgreesWithAccepts(s.element, items[i], path + [Index(i)], isUrl);
      CheckItemsAgree(s, items, i + 1, path, isUrl);
    }
  }

  lemma {:induction false} CheckPropsAgree(s: Schema, props: map<string, Value>, j: nat, path: seq<PathSegment>, isUrl: string -> bool)
    requires s.ZObject? && j <= |s.shape|
    ensures CheckProps(s, props, j, path, isUrl).None? <==>
            forall k :: j <= k < |s.shape| ==> Accepts(s.shape[k].schema, Field(props, s.shape[k].key), isUrl)
    decreases s, 0, |s.shape| - j
  {
    if j < |s.shape| {
      var p := s.shape[j];
      CheckAgreesWithAccepts(p.schema, Field(props, p.key), path + [Key(p.key)], isUrl);
      CheckPropsAgree(s, props, j + 1, path, isUrl);
    }
  }

  /** The schema a shape declares for `key` (its first entry with that key). */
  function Lookup(shape: seq<Prop>, key: string): Option<Schema> {
    LookupFrom(shape, key, 0)
  }

  function LookupFrom(shape: seq<Prop>, key: string, i: nat): Option<Schema>
    requires i <= |shape|
    decreases |shape| - i
  {
    if i == |shape| then None
    else if shape[i].key == key then Some(shape[i].schema)
    else LookupFrom(shape, key, i + 1)
  }

  /** The schema entry `p` of a base shape has once `ext` re-declares its key, if it does. */
  function OverrideSchema(ext: seq<Prop>, p: Prop): Schema {
    match Lookup(ext, p.key)
    case Some(t) => t
    case None => p.schema
  }

  /** The entries `base[i..]`, each with the schema `ext` gives its key, if any. */
  function Overridden(base: seq<Prop>, ext: seq<Prop>, i: nat): (r: seq<Prop>)
    requires i <= |base|
    ensures |r| == |base| - i
    ensures forall j :: 0 <= j < |r| ==> r[j] == Prop(base[i + j].key, OverrideSchema(ext, base[i + j]))
    decreases |base| - i
  {
    if i == |base| then [] else [Prop(base[i].key, OverrideSchema(ext, base[i]))] + Overridden(base, ext, i + 1)
  }

  /**
   * `r[j..]` is a subsequence of `s[k..]`: its entries occur there in the same order. Each
   * entry is matched with its first occurrence that is still available.
   */
  predicate SubsequenceFrom(r: seq<Prop>, j: nat, s: seq<Prop>, k: nat)
    requires j <= |r| && k <= |s|
    decreases |s| - k
  {
    j == |r| || (k < |s| && if r[j] == s[k] then SubsequenceFrom(r, j + 1, s, k + 1) else SubsequenceFrom(r, j, s, k + 1))
  }

  /** Putting an entry in front of `rest` does not change which of its entries still have to be matched. */
  lemma {:induction false} SubsequenceShift(x: Prop, rest: seq<Prop>, j: nat, s: seq<Prop>, k: nat)
    requires j <= |rest| && k <= |s|
    ensures SubsequenceFrom([x] + rest, j + 1, s, k) == SubsequenceFrom(rest, j, s, k)
    decreases |s| - k
  {
    if j < |rest| && k < |s| {
      assert ([x] + rest)[j + 1] == rest[j];
      if rest[j] == s[k] {
        SubsequenceShift(x, rest, j + 1, s, k + 1);
      } else {
        SubsequenceShift(x, rest, j, s, k + 1);
      }
    }
  }

  /**
   * The entries of `ext[i..]` whose key `base` does not declare: all of them, nothing else,
   * and in their order in `ext`.
   */
  function NewEntries(base: seq<Prop>, ext: seq<Prop>, i: nat): (r: seq<Prop>)
    requires i <= |ext|
    ensures forall p :: p in r ==> p in ext && Lookup(base, p.key).None?
    ensures forall k :: i <= k < |ext| && Lookup(base, ext[k].key).None? ==> ext[k] in r
    ensures SubsequenceFrom(r, 0, ext, i)
    decreases |ext| - i
  {
    if i == |ext| then []
    else
      var rest := NewEntries(base, ext, i + 1);
      if Lookup(base, ext[i].key).None? then
        SubsequenceShift(ext[i], rest, 0, ext, i + 1);
        [ext[i]] + rest
      else
        assert |rest| > 0 ==> rest[0] != ext[i] by {
          if |rest| > 0 { assert rest[0] in rest; }
        }
        rest
  }

  /**
   * `base.extend(ext)`: the shape `{...base, ...ext}`. A key of `base` keeps its position and
   * takes the schema `ext` gives it, if any; every entry of `ext` whose key is new follows,
   * in the order of `ext`, and nothing else does.
   */
  function Extend(base: seq<Prop>, ext: seq<Prop>): (r: seq<Prop>)
    ensures |base| <= |r|
    ensures forall j :: 0 <= j < |base| ==> r[j] == Prop(base[j].key, OverrideSchema(ext, base[j]))
    ensures forall j :: |base| <= j < |r| ==> r[j] in ext && Lookup(base, r[j].key).None?
    ensures forall k :: 0 <= k < |ext| && Lookup(base, ext[k].key).None? ==> ext[k] in r[|base|..]
    ensures SubsequenceFrom(r[|base|..], 0, ext, 0)
  {
    var kept := Overridden(base, ext, 0);
    var added := NewEntries(base, ext, 0);
    assert (kept + added)[|base|..] == added;
    kept + added
  }

  /** When `base` declares none of the keys of `ext[i..]`, all of them are new. */
  lemma {:induction false} NewEntriesAll(base: seq<Prop>, ext: seq<Prop>, i: nat)
    requires i <= |ext|
    requires forall k :: i <= k < |ext| ==> Lookup(base, ext[k].key).None?
    ensures NewEntries(base, ext, i) == ext[i..]
    decreases |ext| - i
  {
    if i < |ext| {
      NewEntriesAll(base, ext, i + 1);
      assert ext[i..] == [ext[i]] + ext[i + 1..];
    }
  }

  /**
   * Extending a one-entry shape with a shape that starts with that same entry and does not
   * repeat its key gives the extension itself.
   */
  lemma {:induction false} ExtendOfLeadingEntry(ext: seq<Prop>)
    requires 0 < |ext|
    requires forall k :: 1 <= k < |ext| ==> ext[k].key != ext[0].key
    ensures Extend([ext[0]], ext) == ext
  {
    var base := [ext[0]];
    assert Lookup(ext, ext[0].key) == Some(ext[0].schema);
    assert Overridden(base, ext, 0) == [ext[0]];
    forall k | 1 <= k < |ext| ensures Lookup(base, ext[k].key).None? {
      assert LookupFrom(base, ext[k].key, 1).None?;
    }
    NewEntriesAll(base, ext, 1);
    assert Lookup(base, ext[0].key).Some?;
    assert NewEntries(base, ext, 0) == ext[1..];
    assert ext == [ext[0]] + ext[1..];
  }

  /**
   * An extension that re-declares no key of `base` with a different schema only adds
   * requirements: every object it accepts, `base` accepts too.
   */
  lemma {:induction false} ExtendKeepsBase(base: seq<Prop>, ext: seq<Prop>, v: Value, isUrl: string -> bool)
    requires forall j :: 0 <= j < |base| ==> OverrideSchema(ext, base[j]) == base[j].schema
    requires Accepts(ZObject(Extend(base, ext)), v, isUrl)
    ensures Accepts(ZObject(base), v, isUrl)
  {
    var extended := Extend(base, ext);
    forall j | 0 <= j < |base|
      ensures Accepts(base[j].schema, Field(Props(v), base[j].key), isUrl)
    {
      assert extended[j] == base[j];
      assert Accepts(extended[j].schema, Field(Props(v), extended[j].key), isUrl);
    }
  }

  /**
   * The default a field's schema declares with `.default(x)`, looking through `.optional()`.
   * It is documentation only: `.default(x).optional()` accepts `undefined` in its outer
   * `.optional()` before the default is reached.
   */
  function DeclaredDefault(s: Schema): Option<Value> {
    match s
    case ZOptional(inner) => DeclaredDefault(inner)
    case ZDefault(_, fallback) => Some(fallback)
    case _ => None
  }
}
