/**
 * Generation 1 of the extraction calculus (index.ts).
 *
 * Every decorated schema carries `Box<T, R>`: `T` is the type the schema
 * holds and `R` says whether the schema is required when it is a member of an
 * object. A modifier returns a new schema whose box is updated by one of three
 * primitives (`BoxType`, `BoxUnion`, `BoxReq`); `ExtractType` turns a schema,
 * a bare `{ key: schema }` map or a bare `[schema, ...]` list into a type.
 * `R` never reaches the extracted type at top level: it only decides on which
 * side of the required/optional partition an object member lands.
 */
module BoxModel {
  import opened Types

  /** The decorated schema interfaces of index.ts. */
  datatype Kind =
    | StringKind | NumberKind | BooleanKind | DateKind | FunctionKind
    | ArrayKind | ObjectKind | AlternativesKind

  /**
   * The type argument `N` of a decorated schema: a `Box<T, R>`, or `null`,
   * the default of `ObjectSchema<N = null>` that Joi's own `object()` (called
   * without a key map) returns.
   */
  datatype Carrier = Box(t: Ty, r: bool) | NoBox

  /** Whatever can stand where index.ts expects a `mappedSchema`. */
  datatype Schema =
    | Decorated(kind: Kind, n: Carrier)
    | AnySchema                               // `Joi.any()`: not decorated by index.ts
    | Prim(p: Primitive)                      // a primitive type used as a schema
    | SchemaMap(members: map<string, Schema>) // a bare `{ key: schema }` map
    | SchemaList(elems: seq<Schema>)          // a bare `[schema, ...]` list

  /** The kinds whose `N` is constrained to `Box<base, boolean>` and that take `valid` and `default`. */
  predicate ScalarKind(k: Kind)
  {
    k == StringKind || k == NumberKind || k == BooleanKind || k == DateKind
  }

  /** The base type of a scalar kind: the constraint of its type parameters. */
  function KindType(k: Kind): (t: Ty)
    requires ScalarKind(k)
  {
    match k
    case StringKind => Str
    case NumberKind => Num
    case BooleanKind => Bool
    case DateKind => Date
  }

  // ---------------------------------------------------------------------------
  // Box update primitives (index.ts:21-24)
  // ---------------------------------------------------------------------------

  /** `BoxType<B, nT>`: a box gets the carried type `nT`; anything else is left as it is. */
  function BoxType(b: Carrier, t: Ty): (r: Carrier)
    ensures b.Box? ==> r.Box? && r.t == t && r.r == b.r
    ensures b.NoBox? ==> r == b
  {
    if b.Box? then Box(t, b.r) else b
  }

  /** `BoxUnion<B, nT>`: a box carries `oT | nT` afterwards. */
  function BoxUnion(b: Carrier, t: Ty): (r: Carrier)
    ensures b.Box? ==> r.Box? && r.r == b.r
    ensures b.Box? ==> forall v :: Inhabits(v, r.t) <==> Inhabits(v, b.t) || Inhabits(v, t)
    ensures b.NoBox? ==> r == b
  {
    if b.Box? then Box(Join(b.t, t), b.r) else b
  }

  /** `BoxReq<B, nR>`: a box gets the flag `nR`; anything else is left as it is. */
  function BoxReq(b: Carrier, r: bool): (res: Carrier)
    ensures b.Box? ==> res.Box? && res.t == b.t && res.r == r
    ensures b.NoBox? ==> res == b
  {
    if b.Box? then Box(b.t, r) else b
  }

  /**
   * The carried type and the flag are independent: updating one leaves the
   * other, the two updates commute, and a second update of the same
   * component overrides the first.
   */
  lemma BoxUpdatesIndependent(b: Carrier, t1: Ty, t2: Ty, r1: bool, r2: bool)
    ensures BoxReq(BoxType(b, t1), r1) == BoxType(BoxReq(b, r1), t1)
    ensures BoxType(BoxType(b, t1), t2) == BoxType(b, t2)
    ensures BoxReq(BoxReq(b, r1), r2) == BoxReq(b, r2)
    ensures b.Box? ==> BoxType(b, t1).r == b.r && BoxReq(b, r1).t == b.t
  {
  }

  // ---------------------------------------------------------------------------
  // Extraction (index.ts:356-431)
  // ---------------------------------------------------------------------------

  /** `maybeExtractBox<N>`: the carried type of a box, `N` itself (`null`) otherwise. */
  function MaybeExtractBox(n: Carrier): (t: Ty)
    ensures n.Box? ==> t == n.t
    ensures n.NoBox? ==> t == Null
  {
    if n.Box? then n.t else Null
  }

  /**
   * `extractOne<T>`: a primitive type is itself, a decorated schema its
   * carried type (an array schema an array of it). A bare map reaches
   * `mappedSchemaMap<infer O>`, whose unused parameter infers `unknown`; that
   * and everything else falls to `any`.
   */
  function ExtractOne(s: Schema): (t: Ty)
    ensures s.Prim? ==> t == PrimitiveType(s.p)
    ensures s.Decorated? && s.kind != ArrayKind ==> t == MaybeExtractBox(s.n)
    ensures s.Decorated? && s.kind == ArrayKind ==> t.ArrayOf? && t.elem == MaybeExtractBox(s.n)
    ensures !s.Prim? && !s.Decorated? ==> forall v :: Inhabits(v, t)
  {
    match s
    case Prim(p) => PrimitiveType(p)
    case Decorated(k, n) => if k == ArrayKind then ArrayOf(MaybeExtractBox(n)) else MaybeExtractBox(n)
    case _ => Any
  }

  /**
   * `extractType<T>`: a bare list is the union of `extractOne` of its elements
   * (the alternatives shorthand), a bare map is extracted as an object's key
   * map, anything else by `extractOne`.
   */
  function ExtractType(s: Schema): (t: Ty)
    decreases s, 1
    ensures s.SchemaMap? ==> t.Obj?
    ensures !s.SchemaList? && !s.SchemaMap? ==> t == ExtractOne(s)
  {
    match s
    case SchemaList(es) => JoinAll(seq(|es|, i requires 0 <= i < |es| => ExtractOne(es[i])))
    case SchemaMap(m) => ExtractMap(m)
    case _ => ExtractOne(s)
  }

  /**
   * `R` never reaches the extracted type: flipping it changes nothing, and a
   * decorated schema admits `undefined` only when its carried type does (an
   * array schema never).
   */
  lemma ExtractIgnoresRequired(k: Kind, t: Ty, r: bool)
    ensures ExtractType(Decorated(k, Box(t, r))) == ExtractType(Decorated(k, Box(t, !r)))
    ensures Inhabits(VUndefined, ExtractType(Decorated(k, Box(t, r)))) <==> k != ArrayKind && Inhabits(VUndefined, t)
  {
  }

  /** `MarkRequired<T, true>` keeps the member: a decorated schema boxed with `R = true`. */
  predicate IsRequired(s: Schema)
  {
    s.Decorated? && s.n.Box? && s.n.r
  }

  /** `FilterVoid` drops a member whose schema type is itself `null` or `undefined`. */
  predicate IsVoid(s: Schema)
  {
    s == Prim(PUndefined) || s == Prim(PNull)
  }

  /** `MarkRequired<T, false>` keeps the member and `FilterVoid` does not drop it. */
  predicate IsOptional(s: Schema)
  {
    !IsRequired(s) && !IsVoid(s)
  }

  /** Every member schema lands in exactly one class: required, optional or dropped. */
  lemma PresenceClasses(s: Schema)
    ensures IsRequired(s) || IsOptional(s) || IsVoid(s)
    ensures !(IsRequired(s) && IsOptional(s)) && !(IsRequired(s) && IsVoid(s)) && !(IsOptional(s) && IsVoid(s))
  {
  }

  /**
   * `extractMap<T>` (index.ts:371-375): `Optional<T>` members become optional
   * properties and `Required<T>` members required ones.
   */
  function ExtractMap(m: map<string, Schema>): (r: Ty)
    decreases SchemaMap(m), 0
    ensures r.Obj?
  {
    Obj(map k | k in m && IsRequired(m[k]) :: ExtractType(m[k]),
        map k | k in m && IsOptional(m[k]) :: ExtractType(m[k]))
  }

  /**
   * The required/optional partition: a member is a required property exactly
   * when its schema is boxed with `R = true`, an optional one exactly when it
   * is not and its schema is not the type `null`/`undefined`, never both; each
   * property has its member's extracted type.
   */
  lemma ExtractMapPartition(m: map<string, Schema>, k: string)
    ensures ExtractMap(m).required.Keys !! ExtractMap(m).optional.Keys
    ensures k in ExtractMap(m).required <==> k in m && IsRequired(m[k])
    ensures k in ExtractMap(m).optional <==> k in m && !IsRequired(m[k]) && !IsVoid(m[k])
    ensures k in m && !IsVoid(m[k]) ==> k in ExtractMap(m).required || k in ExtractMap(m).optional
    ensures k in ExtractMap(m).required ==> ExtractMap(m).required[k] == ExtractType(m[k])
    ensures k in ExtractMap(m).optional ==> ExtractMap(m).optional[k] == ExtractType(m[k])
  {
  }

  /**
   * The values an extracted key map admits: objects holding every required
   * property with its type, and each optional property, when present, with
   * its type or `undefined`. Members whose schema is the type `null` or
   * `undefined` constrain nothing.
   */
  lemma ExtractMapAdmits(m: map<string, Schema>, x: Value)
    ensures Inhabits(x, ExtractMap(m)) <==>
      && x.VObj?
      && (forall k | k in m && IsRequired(m[k]) :: k in x.fields && Inhabits(x.fields[k], ExtractType(m[k])))
      && (forall k | k in m && IsOptional(m[k]) && k in x.fields ::
            x.fields[k] == VUndefined || Inhabits(x.fields[k], ExtractType(m[k])))
  {
    var r := ExtractMap(m);
    forall k
      ensures k in r.required <==> k in m && IsRequired(m[k])
      ensures k in r.optional <==> k in m && IsOptional(m[k])
    {
      ExtractMapPartition(m, k);
    }
  }

  // ---------------------------------------------------------------------------
  // Constructors (index.ts:104, 127, 153, 176, 194, 225, 290-292, 341-353)
  // ---------------------------------------------------------------------------

  /** The kinds whose constructor takes a type argument: `string<T>()`, ..., `func<T>()`. */
  predicate TypedKind(k: Kind)
  {
    ScalarKind(k) || k == FunctionKind
  }

  /** The constraint on that type argument, which is also `T` when the call gives none. */
  function BaseType(k: Kind): (t: Ty)
    requires TypedKind(k)
  {
    if k == FunctionKind then Func else KindType(k)
  }

  /**
   * `string<T extends string>()` ... `func<T extends Function>()`: the schema
   * holds the type argument `T`, which extends the kind's base type, and is
   * not required.
   */
  function Constructor(k: Kind, t: Ty): (s: Schema)
    requires TypedKind(k) && Subtype(t, BaseType(k))
    ensures s.Decorated? && s.kind == k && s.n.Box? && IsOptional(s)
    ensures ExtractType(s) == t
    ensures forall v | Inhabits(v, ExtractType(s)) :: Inhabits(v, BaseType(k))
  {
    SubtypeAdmits(t, BaseType(k));
    Decorated(k, Box(t, false))
  }

  /** `string()` without a type argument: `T` is its constraint `string`. */
  function StringSchema(): (s: Schema)
    ensures s.Decorated? && s.kind == StringKind && ExtractType(s) == Str && IsOptional(s)
  {
    Constructor(StringKind, Str)
  }

  function NumberSchema(): (s: Schema)
    ensures s.Decorated? && s.kind == NumberKind && ExtractType(s) == Num && IsOptional(s)
  {
    Constructor(NumberKind, Num)
  }

  function BooleanSchema(): (s: Schema)
    ensures s.Decorated? && s.kind == BooleanKind && ExtractType(s) == Bool && IsOptional(s)
  {
    Constructor(BooleanKind, Bool)
  }

  function DateSchema(): (s: Schema)
    ensures s.Decorated? && s.kind == DateKind && ExtractType(s) == Date && IsOptional(s)
  {
    Constructor(DateKind, Date)
  }

  function FuncSchema(): (s: Schema)
    ensures s.Decorated? && s.kind == FunctionKind && ExtractType(s) == Func && IsOptional(s)
  {
    Constructor(FunctionKind, Func)
  }

  /** `array()` holds `never`: it admits only the empty array until `items` adds element types. */
  function ArraySchema(): (s: Schema)
    ensures s.Decorated? && s.kind == ArrayKind && s.n.Box? && IsOptional(s)
    ensures forall v :: Inhabits(v, ExtractType(s)) <==> v == VArr([])
  {
    ArrayOfNeverIsEmpty();
    Decorated(ArrayKind, Box(Never, false))
  }

  /** The only array whose elements all inhabit `never` is the empty one. */
  lemma ArrayOfNeverIsEmpty()
    ensures forall v :: Inhabits(v, ArrayOf(Never)) <==> v == VArr([])
  {
    forall v
      ensures Inhabits(v, ArrayOf(Never)) <==> v == VArr([])
    {
      if v.VArr? && |v.elems| > 0 {
        assert !Inhabits(v.elems[0], Never);
      }
    }
  }

  /** `object(map)`: extracts exactly as the bare map does. */
  function ObjectSchema(m: map<string, Schema>): (s: Schema)
    ensures s.Decorated? && s.kind == ObjectKind && s.n.Box? && IsOptional(s)
    ensures ExtractType(s) == ExtractType(SchemaMap(m))
  {
    Decorated(ObjectKind, Box(ExtractMap(m), false))
  }

  /**
   * `object()` without a key map is not covered by the decorated signature,
   * which requires one; Joi's own `ObjectSchema<N = null>` is returned and
   * `maybeExtractBox<null>` extracts it to `null`.
   */
  function EmptyObjectSchema(): (s: Schema)
    ensures s.Decorated? && s.kind == ObjectKind && s.n.NoBox? && IsOptional(s)
    ensures ExtractType(s) == Null
  {
    Decorated(ObjectKind, NoBox)
  }

  /** The extracted types of a list of schemas. */
  function ExtractTypes(alts: seq<Schema>): (ts: seq<Ty>)
    ensures |ts| == |alts| && forall i | 0 <= i < |alts| :: ts[i] == ExtractType(alts[i])
  {
    seq(|alts|, i requires 0 <= i < |alts| => ExtractType(alts[i]))
  }

  /**
   * `alternatives(s1, ..., sn)` and its alias `alt`: the union of the
   * branches' extracted types, not required.
   */
  function Alternatives(alts: seq<Schema>): (s: Schema)
    ensures s.Decorated? && s.kind == AlternativesKind && s.n.Box? && IsOptional(s)
    ensures forall v :: Inhabits(v, ExtractType(s)) <==> exists i | 0 <= i < |alts| :: Inhabits(v, ExtractType(alts[i]))
  {
    Decorated(AlternativesKind, Box(JoinAll(ExtractTypes(alts)), false))
  }

  /** The order (and repetition) of the branches does not change the extracted type. */
  lemma AlternativesOrderFree(a: seq<Schema>, b: seq<Schema>)
    requires forall s :: s in a <==> s in b
    ensures Alternatives(a) == Alternatives(b)
  {
    var xs, ys := ExtractTypes(a), ExtractTypes(b);
    forall t
      ensures t in xs <==> t in ys
    {
      if t in xs {
        var i :| 0 <= i < |a| && xs[i] == t;
        assert a[i] in b;
        var j :| 0 <= j < |b| && b[j] == a[i];
        assert ys[j] == t;
      }
      if t in ys {
        var j :| 0 <= j < |b| && ys[j] == t;
        assert b[j] in a;
        var i :| 0 <= i < |a| && a[i] == b[j];
        assert xs[i] == t;
      }
    }
    JoinAllSameElements(xs, ys);
  }

  // ---------------------------------------------------------------------------
  // Presence modifiers, shared by every kind
  // ---------------------------------------------------------------------------

  /** `required()`: `BoxReq<N, true>`; the extracted type is unchanged. */
  function Required(s: Schema): (r: Schema)
    requires s.Decorated?
    ensures r.Decorated? && r.kind == s.kind && r.n.Box? == s.n.Box?
    ensures ExtractType(r) == ExtractType(s)
    ensures IsRequired(r) <==> s.n.Box?
  {
    Decorated(s.kind, BoxReq(s.n, true))
  }

  /** `exist()`: the same box update as `required()`. */
  function Exist(s: Schema): (r: Schema)
    requires s.Decorated?
    ensures r.Decorated? && r.kind == s.kind && r.n.Box? == s.n.Box?
    ensures ExtractType(r) == ExtractType(s)
    ensures IsRequired(r) <==> s.n.Box?
  {
    Required(s)
  }

  /** `optional()`: `BoxReq<N, false>`; the extracted type is unchanged. */
  function Optional(s: Schema): (r: Schema)
    requires s.Decorated?
    ensures r.Decorated? && r.kind == s.kind && r.n.Box? == s.n.Box?
    ensures ExtractType(r) == ExtractType(s)
    ensures IsOptional(r)
  {
    Decorated(s.kind, BoxReq(s.n, false))
  }

  datatype Presence = CallRequired | CallExist | CallOptional

  /** A chain of presence calls, applied left to right. */
  function ApplyPresence(s: Schema, calls: seq<Presence>): (r: Schema)
    requires s.Decorated?
    ensures r.Decorated? && r.kind == s.kind && r.n.Box? == s.n.Box?
    decreases |calls|
  {
    if calls == [] then s
    else
      var next := match calls[0]
        case CallRequired => Required(s)
        case CallExist => Exist(s)
        case CallOptional => Optional(s);
      ApplyPresence(next, calls[1..])
  }

  /**
   * The last presence call wins: after any non-empty chain, the schema is
   * required exactly when the last call is `required()` or `exist()`, and its
   * extracted type is the one it started with.
   */
  lemma {:induction false} PresenceLastWins(s: Schema, calls: seq<Presence>)
    requires s.Decorated? && s.n.Box? && |calls| > 0
    ensures ExtractType(ApplyPresence(s, calls)) == ExtractType(s)
    ensures IsRequired(ApplyPresence(s, calls)) <==> calls[|calls| - 1] != CallOptional
    decreases |calls|
  {
    var next := match calls[0]
      case CallRequired => Required(s)
      case CallExist => Exist(s)
      case CallOptional => Optional(s);
    assert ApplyPresence(s, calls) == ApplyPresence(next, calls[1..]);
    if |calls| > 1 {
      PresenceLastWins(next, calls[1..]);
    }
  }

  // ---------------------------------------------------------------------------
  // String, number, boolean and date modifiers (index.ts:86-176)
  // ---------------------------------------------------------------------------

  /**
   * `valid(v1, ..., vn)`: `BoxType<N, typeof values[number]>`. The carried
   * type becomes the union of the given literals, replacing what it was, and
   * `R` is kept. With no values the type parameter is inferred as its
   * constraint, the kind's base type.
   */
  function Valid(s: Schema, vs: seq<Value>): (r: Schema)
    requires s.Decorated? && ScalarKind(s.kind) && s.n.Box?
    requires forall i | 0 <= i < |vs| :: Inhabits(vs[i], KindType(s.kind))
    ensures r.Decorated? && r.kind == s.kind && r.n.Box?
    ensures IsRequired(r) == IsRequired(s)
    ensures |vs| > 0 ==> forall v :: Inhabits(v, ExtractType(r)) <==> v in vs
    ensures |vs| == 0 ==> ExtractType(r) == KindType(s.kind)
  {
    KindValuesScalar(s.kind, vs);
    Decorated(s.kind, BoxType(s.n, if |vs| == 0 then KindType(s.kind) else LiteralsType(vs)))
  }

  /** The values of a scalar kind's base type are scalars. */
  lemma KindValuesScalar(k: Kind, vs: seq<Value>)
    requires ScalarKind(k)
    requires forall i | 0 <= i < |vs| :: Inhabits(vs[i], KindType(k))
    ensures forall i | 0 <= i < |vs| :: Scalar(vs[i])
  {
    forall i | 0 <= i < |vs|
      ensures Scalar(vs[i])
    {
      assert Inhabits(vs[i], KindType(k));
    }
  }

  /** A second `valid` replaces the first: the earlier literals are forgotten. */
  lemma ValidReplaces(s: Schema, a: seq<Value>, b: seq<Value>)
    requires s.Decorated? && ScalarKind(s.kind) && s.n.Box?
    requires forall i | 0 <= i < |a| :: Inhabits(a[i], KindType(s.kind))
    requires forall i | 0 <= i < |b| :: Inhabits(b[i], KindType(s.kind))
    ensures Valid(Valid(s, a), b) == Valid(s, b)
  {
  }

  /**
   * `default(v)`: `Box<N['T'] | T, true>`. The default's literal type is
   * added to the carried type, and the schema becomes required inside an
   * object.
   */
  function Default(s: Schema, v: Value): (r: Schema)
    requires s.Decorated? && ScalarKind(s.kind) && s.n.Box?
    requires Inhabits(v, KindType(s.kind))
    ensures r.Decorated? && r.kind == s.kind && r.n.Box? && IsRequired(r)
    ensures forall x :: Inhabits(x, ExtractType(r)) <==> Inhabits(x, ExtractType(s)) || x == v
  {
    Decorated(s.kind, Box(Join(s.n.t, LiteralType(v)), true))
  }

  // ---------------------------------------------------------------------------
  // Array modifiers (index.ts:196-225)
  // ---------------------------------------------------------------------------

  /** The element types of an array default: array literal elements are widened. */
  function WidenedTypes(vs: seq<Value>): (ts: seq<Ty>)
    ensures |ts| == |vs| && forall i | 0 <= i < |vs| :: ts[i] == Widen(vs[i])
  {
    seq(|vs|, i requires 0 <= i < |vs| => Widen(vs[i]))
  }

  /**
   * Array `default(vs)`: `BoxReq<BoxUnion<N, extractType<ArrayType<T>>>, true>`.
   * The widened types of the default's elements are added to the element
   * type, the schema becomes required, and the default itself is admitted.
   */
  function DefaultArray(s: Schema, vs: seq<Value>): (r: Schema)
    requires s.Decorated? && s.kind == ArrayKind
    requires forall i | 0 <= i < |vs| :: Scalar(vs[i])
    ensures r.Decorated? && r.kind == ArrayKind
    ensures s.n.NoBox? ==> r == s
    ensures s.n.Box? ==> IsRequired(r) && ExtractType(r).ArrayOf? && Inhabits(VArr(vs), ExtractType(r))
    ensures s.n.Box? ==> forall x :: Inhabits(x, ExtractType(r).elem) <==>
              Inhabits(x, ExtractType(s).elem) || exists i | 0 <= i < |vs| :: Inhabits(x, Widen(vs[i]))
  {
    var added := JoinAll(WidenedTypes(vs));
    forall i | 0 <= i < |vs|
      ensures Inhabits(vs[i], added)
    {
      WidenAdmits(vs[i]);
    }
    Decorated(ArrayKind, BoxReq(BoxUnion(s.n, added), true))
  }

  /**
   * Array `items(t)`: `BoxType<O, oT | extractType<T>>`. The item's extracted
   * type is added to the element type (which `array()` starts at `never`),
   * and `R` is kept. On an unboxed array schema a fresh box is started.
   */
  function Items(s: Schema, item: Schema): (r: Schema)
    requires s.Decorated? && s.kind == ArrayKind
    ensures r.Decorated? && r.kind == ArrayKind && r.n.Box?
    ensures IsRequired(r) == IsRequired(s)
    ensures ExtractType(r).ArrayOf?
    ensures forall x :: Inhabits(x, ExtractType(r).elem) <==>
              (s.n.Box? && Inhabits(x, ExtractType(s).elem)) || Inhabits(x, ExtractType(item))
  {
    var added := ExtractType(item);
    Decorated(ArrayKind, if s.n.Box? then BoxType(s.n, Join(s.n.t, added)) else Box(added, false))
  }

  // ---------------------------------------------------------------------------
  // Object modifiers (index.ts:230-292)
  // ---------------------------------------------------------------------------

  /**
   * Object `default(map)`: `BoxReq<BoxUnion<N, extractType<T>>, true>`. The
   * map's extracted type is added as an alternative and the schema becomes
   * required.
   */
  function DefaultObject(s: Schema, m: map<string, Schema>): (r: Schema)
    requires s.Decorated? && s.kind == ObjectKind
    ensures r.Decorated? && r.kind == ObjectKind
    ensures s.n.NoBox? ==> r == s
    ensures s.n.Box? ==> IsRequired(r)
    ensures s.n.Box? ==> forall x :: Inhabits(x, ExtractType(r)) <==>
              Inhabits(x, ExtractType(s)) || Inhabits(x, ExtractType(SchemaMap(m)))
  {
    Decorated(ObjectKind, BoxReq(BoxUnion(s.n, ExtractMap(m)), true))
  }

  /**
   * Object `keys(map)`: `BoxType<O, oT & extractMap<T>>`. A value must satisfy
   * both the existing object type and the new key map; `R` is kept. On
   * `object()` without a map a fresh, unrequired box is started.
   */
  function Keys(s: Schema, m: map<string, Schema>): (r: Schema)
    requires s.Decorated? && s.kind == ObjectKind
    ensures r.Decorated? && r.kind == ObjectKind && r.n.Box?
    ensures IsRequired(r) == IsRequired(s)
    ensures forall x :: Inhabits(x, ExtractType(r)) <==>
              (s.n.Box? ==> Inhabits(x, ExtractType(s))) && Inhabits(x, ExtractType(SchemaMap(m)))
  {
    Decorated(ObjectKind, if s.n.Box? then BoxType(s.n, Inter(s.n.t, ExtractMap(m))) else Box(ExtractMap(m), false))
  }

  /** Object `append(map | null | undefined)`: as `keys` for a map; `null`/`undefined` returns the schema unchanged. */
  function Append(s: Schema, m: Option<map<string, Schema>>): (r: Schema)
    requires s.Decorated? && s.kind == ObjectKind
    ensures m.None? ==> r == s
    ensures m.Some? ==> r.Decorated? && r.kind == ObjectKind && r.n.Box? && IsRequired(r) == IsRequired(s)
    ensures m.Some? ==> forall x :: Inhabits(x, ExtractType(r)) <==>
              (s.n.Box? ==> Inhabits(x, ExtractType(s))) && Inhabits(x, ExtractType(SchemaMap(m.value)))
  {
    match m
    case None => s
    case Some(keys) => Keys(s, keys)
  }

  /** The string keys a key type names, when it is a union of string literals. */
  function LiteralKeys(t: Ty): (r: Option<set<string>>)
    ensures r.Some? <==> forall m | m in Members(t) :: m.Lit? && m.lit.LStr?
    ensures r.Some? ==> forall k :: k in r.value <==> Lit(LStr(k)) in Members(t)
  {
    if forall m | m in Members(t) :: m.Lit? && m.lit.LStr?
    then Some(set m | m in Members(t) && m.Lit? && m.lit.LStr? :: m.lit.s)
    else None
  }

  /**
   * `extractMap<{ [key in K]: T }>`: for a union of string literal keys the
   * mapped type has one named property per key, partitioned by `T`'s `R`
   * like any member; for a wider key type it is an index signature, whose
   * values may also be `undefined` when `T` is optional.
   */
  function PatternMap(keyTy: Ty, val: Schema): (r: Ty)
    ensures LiteralKeys(keyTy).Some? ==> r.Obj? && r.required.Keys + r.optional.Keys <= LiteralKeys(keyTy).value
    ensures LiteralKeys(keyTy).Some? ==> forall k ::
              && (k in r.required <==> k in LiteralKeys(keyTy).value && IsRequired(val))
              && (k in r.optional <==> k in LiteralKeys(keyTy).value && IsOptional(val))
    ensures LiteralKeys(keyTy).Some? ==>
              (forall k | k in r.required :: r.required[k] == ExtractType(val))
              && (forall k | k in r.optional :: r.optional[k] == ExtractType(val))
  {
    match LiteralKeys(keyTy)
    case Some(keys) =>
      var m := map k | k in keys :: val;
      PatternKeysPartition(m, keys, val);
      ExtractMap(m)
    case None =>
      if IsRequired(val) then Index(keyTy, ExtractType(val))
      else if IsVoid(val) then Obj(map[], map[])
      else Index(keyTy, Join(ExtractType(val), Undefined))
  }

  /** A key map sending every literal key to the same value schema is partitioned by that schema alone. */
  lemma PatternKeysPartition(m: map<string, Schema>, keys: set<string>, val: Schema)
    requires m == map k | k in keys :: val
    ensures forall k ::
              && (k in ExtractMap(m).required <==> k in keys && IsRequired(val))
              && (k in ExtractMap(m).optional <==> k in keys && IsOptional(val))
    ensures forall k | k in ExtractMap(m).required :: ExtractMap(m).required[k] == ExtractType(val)
    ensures forall k | k in ExtractMap(m).optional :: ExtractMap(m).optional[k] == ExtractType(val)
  {
    forall k
      ensures k in ExtractMap(m).required <==> k in keys && IsRequired(val)
      ensures k in ExtractMap(m).optional <==> k in keys && IsOptional(val)
      ensures k in ExtractMap(m).required ==> ExtractMap(m).required[k] == ExtractType(val)
      ensures k in ExtractMap(m).optional ==> ExtractMap(m).optional[k] == ExtractType(val)
    {
      ExtractMapPartition(m, k);
    }
  }

  /** A single literal key gives one named property, required or optional as the value schema is. */
  lemma PatternMapLiteral(key: string, val: Schema)
    ensures IsRequired(val) ==> PatternMap(Lit(LStr(key)), val) == Obj(map[key := ExtractType(val)], map[])
    ensures IsOptional(val) ==> PatternMap(Lit(LStr(key)), val) == Obj(map[], map[key := ExtractType(val)])
    ensures IsVoid(val) ==> PatternMap(Lit(LStr(key)), val) == Obj(map[], map[])
  {
    LiteralKeysSingle(key);
    var r := PatternMap(Lit(LStr(key)), val);
    if IsRequired(val) {
      assert r.required.Keys == {key} && r.optional.Keys == {};
    } else if IsOptional(val) {
      assert r.required.Keys == {} && r.optional.Keys == {key};
    } else {
      assert r.required.Keys == {} && r.optional.Keys == {};
    }
  }

  /** A single string literal names exactly its own key. */
  lemma LiteralKeysSingle(key: string)
    ensures LiteralKeys(Lit(LStr(key))) == Some({key})
  {
    var t := Lit(LStr(key));
    assert Members(t) == {t};
    var lk := LiteralKeys(t);
    assert lk.Some? && key in lk.value;
    assert forall k | k in lk.value :: k == key;
    assert lk.value == {key};
  }

  /**
   * The key type `string` gives an index signature: every field must hold
   * the value schema's type, or may be `undefined` when that schema is
   * optional.
   */
  lemma PatternMapString(val: Schema, x: Value)
    ensures IsRequired(val) ==> (Inhabits(x, PatternMap(Str, val)) <==>
              x.VObj? && forall k | k in x.fields :: Inhabits(x.fields[k], ExtractType(val)))
    ensures IsOptional(val) ==> (Inhabits(x, PatternMap(Str, val)) <==>
              x.VObj? && forall k | k in x.fields :: x.fields[k] == VUndefined || Inhabits(x.fields[k], ExtractType(val)))
  {
    assert Str in Members(Str);
    assert LiteralKeys(Str).None?;
    var vt := ExtractType(val);
    if IsRequired(val) {
      assert PatternMap(Str, val) == Index(Str, vt);
      StringIndexAdmits(vt, x);
    } else if IsOptional(val) {
      var u := Join(vt, Undefined);
      assert PatternMap(Str, val) == Index(Str, u);
      StringIndexAdmits(u, x);
    }
  }

  /** An index signature over `string` constrains every field. */
  lemma StringIndexAdmits(vt: Ty, x: Value)
    ensures Inhabits(x, Index(Str, vt)) <==> x.VObj? && forall k | k in x.fields :: Inhabits(x.fields[k], vt)
  {
    assert forall k: string :: Inhabits(VLit(LStr(k)), Str);
  }

  /**
   * Object `pattern(keySchema, schema)`: `BoxType<O, oT | extractMap<{ [key in
   * extractType<S>]: T }>>`. The pattern map is added as an alternative to
   * the object type; `R` is kept.
   */
  function Pattern(s: Schema, key: Schema, val: Schema): (r: Schema)
    requires s.Decorated? && s.kind == ObjectKind
    requires key.Decorated? && key.kind == StringKind
    ensures r.Decorated? && r.kind == ObjectKind && r.n.Box?
    ensures IsRequired(r) == IsRequired(s)
    ensures forall x :: Inhabits(x, ExtractType(r)) <==>
              (s.n.Box? && Inhabits(x, ExtractType(s))) || Inhabits(x, PatternMap(ExtractType(key), val))
  {
    var added := PatternMap(ExtractType(key), val);
    Decorated(ObjectKind, if s.n.Box? then BoxType(s.n, Join(s.n.t, added)) else Box(added, false))
  }

  /** Object `pattern(regex, schema)`: as `Pattern` with the key type `string`. */
  function PatternRegex(s: Schema, val: Schema): (r: Schema)
    requires s.Decorated? && s.kind == ObjectKind
    ensures r.Decorated? && r.kind == ObjectKind && r.n.Box?
    ensures IsRequired(r) == IsRequired(s)
    ensures forall x :: Inhabits(x, ExtractType(r)) <==>
              (s.n.Box? && Inhabits(x, ExtractType(s))) || Inhabits(x, PatternMap(Str, val))
  {
    var added := PatternMap(Str, val);
    Decorated(ObjectKind, if s.n.Box? then BoxType(s.n, Join(s.n.t, added)) else Box(added, false))
  }

  // ---------------------------------------------------------------------------
  // Alternatives modifiers (index.ts:297-339)
  // ---------------------------------------------------------------------------

  /**
   * `try(s1, ..., sn)`: `BoxType<O, oT | extractType<T>>` with `T` the tuple of
   * branches, so each branch goes through the bare-list rule (`extractOne`).
   */
  function Try(s: Schema, alts: seq<Schema>): (r: Schema)
    requires s.Decorated? && s.kind == AlternativesKind
    ensures r.Decorated? && r.kind == AlternativesKind && r.n.Box?
    ensures IsRequired(r) == IsRequired(s)
    ensures forall x :: Inhabits(x, ExtractType(r)) <==>
              (s.n.Box? && Inhabits(x, ExtractType(s))) || exists i | 0 <= i < |alts| :: Inhabits(x, ExtractOne(alts[i]))
  {
    var added := ExtractType(SchemaList(alts));
    ExtractListAdmits(alts);
    Decorated(AlternativesKind, if s.n.Box? then BoxType(s.n, Join(s.n.t, added)) else Box(added, false))
  }

  /** A bare list admits exactly what one of its elements' `extractOne` admits. */
  lemma ExtractListAdmits(alts: seq<Schema>)
    ensures forall x :: Inhabits(x, ExtractType(SchemaList(alts))) <==> exists i | 0 <= i < |alts| :: Inhabits(x, ExtractOne(alts[i]))
  {
    var ts := seq(|alts|, i requires 0 <= i < |alts| => ExtractOne(alts[i]));
    assert ExtractType(SchemaList(alts)) == JoinAll(ts);
    assert forall i | 0 <= i < |alts| :: ts[i] == ExtractOne(alts[i]);
  }

  /**
   * `when(ref, { then, otherwise })`: both branches are added, whatever `ref`
   * is; `R` is kept.
   */
  function When(s: Schema, thenSchema: Schema, otherwise: Schema): (r: Schema)
    requires s.Decorated? && s.kind == AlternativesKind
    ensures r.Decorated? && r.kind == AlternativesKind && r.n.Box?
    ensures IsRequired(r) == IsRequired(s)
    ensures forall x :: Inhabits(x, ExtractType(r)) <==>
              (s.n.Box? && Inhabits(x, ExtractType(s))) || Inhabits(x, ExtractType(thenSchema)) || Inhabits(x, ExtractType(otherwise))
  {
    var added := Join(ExtractType(thenSchema), ExtractType(otherwise));
    Decorated(AlternativesKind, if s.n.Box? then BoxType(s.n, Join(s.n.t, added)) else Box(added, false))
  }
}
