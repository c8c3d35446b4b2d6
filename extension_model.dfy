/**
 * Generation 2 of the extraction calculus (src/index.ts).
 *
 * Every extended schema is an `AnySchemaExtension<V, O>`: `V` is the type of
 * the values it accepts and `O` says whether `undefined` is accepted too.
 * Constructors start optional; `required()`/`exist()` clear `O` and
 * `optional()`/`default()` set it; `valid` replaces `V`, `allow` widens it,
 * and array `items` rebuilds the element type from the item schemas.
 * Extraction is `pullType<V, O>`: `V`, or `V | undefined` when optional.
 * Objects and alternatives are not declared by this generation.
 */
module ExtensionModel {
  import opened Types

  /**
   * Which interface a schema value has: one of the `Extended*Schema`
   * interfaces the constructors return, or the bare `AnySchemaExtension`
   * that every modifier other than `items` returns.
   */
  datatype Flavor =
    | AnyFlavor | StringFlavor | NumberFlavor | BooleanFlavor | DateFlavor | FunctionFlavor
    | ArrayFlavor
    | Plain

  /** Whatever can stand where src/index.ts expects a schema. */
  datatype Schema =
    | Ext(v: Ty, optional: bool, flavor: Flavor) // `AnySchemaExtension<V, O>`
    | Prim(p: Primitive)                         // a primitive type used as a schema
    | Foreign                                    // a Joi schema these declarations do not extend

  // ---------------------------------------------------------------------------
  // Extraction (src/index.ts:323-381)
  // ---------------------------------------------------------------------------

  /** `pullType<V, O>`: `V` when `O` is `false`, `V | undefined` otherwise. */
  function PullType(v: Ty, o: bool): (r: Ty)
    ensures forall x :: Inhabits(x, r) <==> Inhabits(x, v) || (o && x == VUndefined)
    ensures Normal(v) ==> Normal(r)
  {
    if o then Join(v, Undefined) else v
  }

  /**
   * `extractType<T>`, whose every branch reaches `extractOne<T>`: a primitive
   * type is itself, an extended schema (array or not) is `pullType<V, O>`,
   * anything else is `any`.
   */
  function ExtractType(s: Schema): (r: Ty)
    ensures s.Ext? ==> forall x :: Inhabits(x, r) <==> Inhabits(x, s.v) || (s.optional && x == VUndefined)
    ensures s.Prim? ==> r == PrimitiveType(s.p)
    ensures s.Foreign? ==> forall x :: Inhabits(x, r)
  {
    match s
    case Prim(p) => PrimitiveType(p)
    case Ext(v, o, _) => PullType(v, o)
    case Foreign => Any
  }

  /** An optional schema admits `undefined`; a required one only when its `V` does. */
  lemma UndefinedAdmitted(s: Schema)
    requires s.Ext?
    ensures Inhabits(VUndefined, ExtractType(s)) <==> s.optional || Inhabits(VUndefined, s.v)
  {
  }

  // ---------------------------------------------------------------------------
  // Constructors (src/index.ts:91-125, 277-283)
  // ---------------------------------------------------------------------------

  /** `any()`: `ExtendedAnySchema<any, true>`, admitting everything. */
  function AnySchema(): (s: Schema)
    ensures s.Ext? && s.optional && s.flavor == AnyFlavor
    ensures forall x :: Inhabits(x, ExtractType(s))
  {
    Ext(Any, true, AnyFlavor)
  }

  /** `string()`: strings and `undefined`. */
  function StringSchema(): (s: Schema)
    ensures s.Ext? && s.optional && s.flavor == StringFlavor
    ensures forall x :: Inhabits(x, ExtractType(s)) <==> (x.VLit? && x.lit.LStr?) || x == VUndefined
  {
    Ext(Str, true, StringFlavor)
  }

  /** `number()`: numbers and `undefined`. */
  function NumberSchema(): (s: Schema)
    ensures s.Ext? && s.optional && s.flavor == NumberFlavor
    ensures forall x :: Inhabits(x, ExtractType(s)) <==> (x.VLit? && x.lit.LNum?) || x == VUndefined
  {
    Ext(Num, true, NumberFlavor)
  }

  /** `boolean()`: booleans and `undefined`. */
  function BooleanSchema(): (s: Schema)
    ensures s.Ext? && s.optional && s.flavor == BooleanFlavor
    ensures forall x :: Inhabits(x, ExtractType(s)) <==> (x.VLit? && x.lit.LBool?) || x == VUndefined
  {
    Ext(Bool, true, BooleanFlavor)
  }

  /** `date()`: dates and `undefined`. */
  function DateSchema(): (s: Schema)
    ensures s.Ext? && s.optional && s.flavor == DateFlavor
    ensures forall x :: Inhabits(x, ExtractType(s)) <==> x == VDate || x == VUndefined
  {
    Ext(Date, true, DateFlavor)
  }

  /** `func()`: functions and `undefined`. */
  function FuncSchema(): (s: Schema)
    ensures s.Ext? && s.optional && s.flavor == FunctionFlavor
    ensures forall x :: Inhabits(x, ExtractType(s)) <==> x == VFunc || x == VUndefined
  {
    Ext(Func, true, FunctionFlavor)
  }

  /** `array()`: `ExtendedArraySchema<any[], true>`, any array and `undefined`. */
  function ArraySchema(): (s: Schema)
    ensures s.Ext? && s.optional && s.flavor == ArrayFlavor
    ensures forall x :: Inhabits(x, ExtractType(s)) <==> x.VArr? || x == VUndefined
  {
    Ext(ArrayOf(Any), true, ArrayFlavor)
  }

  // ---------------------------------------------------------------------------
  // Presence modifiers (src/index.ts:73-77)
  // ---------------------------------------------------------------------------

  /** `required()`: `AnySchemaExtension<V, false>`, so `undefined` is no longer added. */
  function Required(s: Schema): (r: Schema)
    requires s.Ext?
    ensures r.Ext? && r.v == s.v && !r.optional
    ensures forall x :: Inhabits(x, ExtractType(r)) <==> Inhabits(x, s.v)
  {
    Ext(s.v, false, Plain)
  }

  /** `exist()`: an alias of `required()`. */
  function Exist(s: Schema): (r: Schema)
    requires s.Ext?
    ensures r.Ext? && r.v == s.v && !r.optional
    ensures forall x :: Inhabits(x, ExtractType(r)) <==> Inhabits(x, s.v)
  {
    Required(s)
  }

  /** `optional()`: `AnySchemaExtension<V>`, whose `O` defaults to `true`. */
  function Optional(s: Schema): (r: Schema)
    requires s.Ext?
    ensures r.Ext? && r.v == s.v && r.optional
    ensures forall x :: Inhabits(x, ExtractType(r)) <==> Inhabits(x, s.v) || x == VUndefined
  {
    Ext(s.v, true, Plain)
  }

  datatype Presence = CallRequired | CallExist | CallOptional

  /** A chain of presence calls, applied left to right. */
  function ApplyPresence(s: Schema, calls: seq<Presence>): (r: Schema)
    requires s.Ext?
    ensures r.Ext? && r.v == s.v
    decreases |calls|
  {
    if calls == [] then s
    else
      var next := match calls[0]
        case CallRequired => Required(s)
        case CallExist => Exist(s)
        case CallOptional => Optional(s);
      ApplyPresence(next, calls[1..])
  }

  /**
   * The last presence call wins: after a non-empty chain the schema is
   * optional exactly when the last call is `optional()`, and `V` is the one
   * it started with.
   */
  lemma {:induction false} PresenceLastWins(s: Schema, calls: seq<Presence>)
    requires s.Ext? && |calls| > 0
    ensures ApplyPresence(s, calls).v == s.v
    ensures ApplyPresence(s, calls).optional <==> calls[|calls| - 1] == CallOptional
    decreases |calls|
  {
    var next := match calls[0]
      case CallRequired => Required(s)
      case CallExist => Exist(s)
      case CallOptional => Optional(s);
    assert ApplyPresence(s, calls) == ApplyPresence(next, calls[1..]);
    if |calls| > 1 {
      PresenceLastWins(next, calls[1..]);
    }
  }

  // ---------------------------------------------------------------------------
  // Value modifiers (src/index.ts:66-84)
  // ---------------------------------------------------------------------------

  /**
   * Whether a type has a primitive member: TypeScript then keeps the literal
   * types of arguments inferred for a type parameter it constrains (`valid(2,
   * 3)` on a number schema is `2 | 3`); otherwise they are widened.
   */
  predicate HasPrimitive(t: Ty)
  {
    match t
    case Str => true
    case Num => true
    case Bool => true
    case Null => true
    case Undefined => true
    case Lit(_) => true
    case Union(ms) => exists m | m in ms :: HasPrimitive(m)
    case Inter(a, b) => HasPrimitive(a) || HasPrimitive(b)
    case _ => false
  }

  /** The type inferred for `valid`'s values: their literals under a primitive constraint, their widened types otherwise. */
  function ValidType(constraint: Ty, vs: seq<Value>): (r: Ty)
    ensures forall i | 0 <= i < |vs| :: Inhabits(vs[i], r)
    ensures HasPrimitive(constraint) && (forall i | 0 <= i < |vs| :: Scalar(vs[i])) ==>
              forall x :: Inhabits(x, r) <==> x in vs
    ensures !HasPrimitive(constraint) ==> forall x :: Inhabits(x, r) <==> exists i | 0 <= i < |vs| :: Inhabits(x, Widen(vs[i]))
  {
    if HasPrimitive(constraint) then LiteralsType(vs) else WidenAll(vs)
  }

  /**
   * `valid(v1, ..., vn)`: `AnySchemaExtension<T, O>` with `T` the values'
   * type, so `V` is replaced and `O` kept. Each value must be a `V` (`T
   * extends ValueType`); with no values `T` is inferred as `V` itself.
   */
  function Valid(s: Schema, vs: seq<Value>): (r: Schema)
    requires s.Ext?
    requires forall i | 0 <= i < |vs| :: Inhabits(vs[i], s.v)
    ensures r.Ext? && r.optional == s.optional && r.flavor == Plain
    ensures |vs| == 0 ==> r.v == s.v
    ensures forall i | 0 <= i < |vs| :: Inhabits(vs[i], r.v)
    ensures |vs| > 0 && HasPrimitive(s.v) && (forall i | 0 <= i < |vs| :: Scalar(vs[i])) ==>
              forall x :: Inhabits(x, r.v) <==> x in vs
    ensures |vs| > 0 && !HasPrimitive(s.v) ==>
              forall x :: Inhabits(x, r.v) <==> exists i | 0 <= i < |vs| :: Inhabits(x, Widen(vs[i]))
  {
    Ext(if |vs| == 0 then s.v else ValidType(s.v, vs), s.optional, Plain)
  }

  /** The literal types of scalar values are primitive. */
  lemma LiteralsHavePrimitive(vs: seq<Value>)
    requires |vs| > 0 && forall i | 0 <= i < |vs| :: vs[i].VLit?
    ensures HasPrimitive(LiteralsType(vs))
  {
    var r := LiteralsType(vs);
    assert forall i | 0 <= i < |vs| :: Scalar(vs[i]);
    assert !Inhabits(VUndefined, r);
    LiteralAdmittedPrimitive(vs[0], r);
  }

  /** A type admitting a string, number, boolean, `null` or `undefined` has a primitive member, or admits everything. */
  lemma {:induction false} LiteralAdmittedPrimitive(v: Value, t: Ty)
    requires Scalar(v) && v != VDate && v != VFunc && Inhabits(v, t)
    ensures HasPrimitive(t) || AdmitsAnything(t)
    decreases t
  {
    match t
    case Union(ms) =>
      var m :| m in ms && Inhabits(v, m);
      LiteralAdmittedPrimitive(v, m);
      if !HasPrimitive(m) {
        assert AdmitsAnything(m);
        assert AdmitsAnything(t) by {
          forall x ensures Inhabits(x, t) {
            assert Inhabits(x, m);
          }
        }
      }
    case Inter(a, b) =>
      LiteralAdmittedPrimitive(v, a);
      LiteralAdmittedPrimitive(v, b);
      if !HasPrimitive(a) && !HasPrimitive(b) {
        forall x ensures Inhabits(x, t) {
          assert Inhabits(x, a) && Inhabits(x, b);
        }
      }
    case _ =>
  }

  /** A type that every value inhabits. */
  ghost predicate AdmitsAnything(t: Ty)
  {
    forall x :: Inhabits(x, t)
  }

  /**
   * A second `valid` replaces the first: once `valid(a...)` has narrowed a
   * primitive-typed schema to literals, `valid(b...)` leaves exactly `b` (and
   * `undefined` when optional); the literals of `a` left out of `b` are gone.
   */
  lemma ValidReplaces(s: Schema, a: seq<Value>, b: seq<Value>)
    requires s.Ext? && HasPrimitive(s.v)
    requires |a| > 0 && forall i | 0 <= i < |a| :: Inhabits(a[i], s.v) && a[i].VLit?
    requires |b| > 0 && forall i | 0 <= i < |b| :: b[i] in a
    ensures Valid(Valid(s, a), b).optional == s.optional
    ensures forall x :: Inhabits(x, Valid(Valid(s, a), b).v) <==> x in b
  {
    var first := Valid(s, a);
    ValidLiteralsPrimitive(s, a);
    assert forall i | 0 <= i < |b| :: Scalar(b[i]) && Inhabits(b[i], first.v) by {
      forall i | 0 <= i < |b|
        ensures Scalar(b[i]) && Inhabits(b[i], first.v)
      {
        var j :| 0 <= j < |a| && a[j] == b[i];
      }
    }
  }

  /** `valid` with literal values on a primitive-typed schema leaves a primitive-typed schema holding exactly them. */
  lemma ValidLiteralsPrimitive(s: Schema, a: seq<Value>)
    requires s.Ext? && HasPrimitive(s.v)
    requires |a| > 0 && forall i | 0 <= i < |a| :: Inhabits(a[i], s.v) && a[i].VLit?
    ensures HasPrimitive(Valid(s, a).v)
    ensures forall x :: Inhabits(x, Valid(s, a).v) <==> x in a
  {
    LiteralsHavePrimitive(a);
    assert Valid(s, a).v == LiteralsType(a);
  }

  /**
   * `allow(v1, ..., vn)`: `AnySchemaExtension<V | T, O>`. `T` is unconstrained,
   * so the values' types are widened (`allow(0)` adds `number`, `allow(null)`
   * adds `null`); with no values `T` is `unknown` and swallows `V`. `O` is kept.
   */
  function Allow(s: Schema, vs: seq<Value>): (r: Schema)
    requires s.Ext?
    ensures r.Ext? && r.optional == s.optional && r.flavor == Plain
    ensures |vs| == 0 ==> AdmitsAnything(r.v)
    ensures |vs| > 0 ==> forall x :: Inhabits(x, r.v) <==>
              Inhabits(x, s.v) || exists i | 0 <= i < |vs| :: Inhabits(x, Widen(vs[i]))
  {
    Ext(if |vs| == 0 then Any else Join(s.v, WidenAll(vs)), s.optional, Plain)
  }

  /**
   * Repeated `allow` calls accumulate: both sets of values are admitted on top
   * of `V`, whichever order the calls come in.
   */
  lemma AllowAccumulates(s: Schema, a: seq<Value>, b: seq<Value>, x: Value)
    requires s.Ext? && |a| > 0 && |b| > 0
    ensures Allow(Allow(s, a), b).optional == s.optional
    ensures Inhabits(x, Allow(Allow(s, a), b).v) <==>
              || Inhabits(x, s.v)
              || (exists i | 0 <= i < |a| :: Inhabits(x, Widen(a[i])))
              || (exists i | 0 <= i < |b| :: Inhabits(x, Widen(b[i])))
    ensures Inhabits(x, Allow(Allow(s, a), b).v) <==> Inhabits(x, Allow(Allow(s, b), a).v)
  {
    AllowAt(s, a, x);
    AllowAt(s, b, x);
    AllowAt(Allow(s, a), b, x);
    AllowAt(Allow(s, b), a, x);
  }

  /** `Allow`'s contract, for one value. */
  lemma AllowAt(s: Schema, vs: seq<Value>, x: Value)
    requires s.Ext? && |vs| > 0
    ensures Inhabits(x, Allow(s, vs).v) <==> Inhabits(x, s.v) || exists i | 0 <= i < |vs| :: Inhabits(x, Widen(vs[i]))
  {
  }

  /**
   * `default(v)`: `AnySchemaExtension<V>`. `V` is kept and `O` goes back to
   * its default `true`, even after `required()`: the validation supplies the
   * value. The default must be a `V` (`T extends ValueType`).
   */
  function Default(s: Schema, v: Value): (r: Schema)
    requires s.Ext? && Inhabits(v, s.v)
    ensures r.Ext? && r.v == s.v && r.optional && r.flavor == Plain
    ensures forall x :: Inhabits(x, ExtractType(r)) <==> Inhabits(x, s.v) || x == VUndefined
  {
    Ext(s.v, true, Plain)
  }

  /** `default` after any presence chain leaves the schema optional, with its `V` intact. */
  lemma DefaultMakesOptional(s: Schema, calls: seq<Presence>, v: Value)
    requires s.Ext? && Inhabits(v, s.v)
    ensures Inhabits(v, ApplyPresence(s, calls).v)
    ensures Default(ApplyPresence(s, calls), v).optional
    ensures forall x :: Inhabits(x, ExtractType(Default(ApplyPresence(s, calls), v))) <==>
              Inhabits(x, s.v) || x == VUndefined
  {
  }

  // ---------------------------------------------------------------------------
  // Array items (src/index.ts:119-138)
  // ---------------------------------------------------------------------------

  /**
   * One entry of `ResolveArrayTypes`: an extended item contributes
   * `pullType<V, false>`, its `V` without `undefined` added; anything else
   * contributes `never`.
   */
  function ItemType(item: Schema): (t: Ty)
    ensures forall x :: Inhabits(x, t) <==> item.Ext? && Inhabits(x, item.v)
  {
    if item.Ext? then PullType(item.v, false) else Never
  }

  /** The types of a list of items. */
  function ItemTypes(items: seq<Schema>): (ts: seq<Ty>)
    ensures |ts| == |items| && forall i | 0 <= i < |items| :: ts[i] == ItemType(items[i])
  {
    seq(|items|, i requires 0 <= i < |items| => ItemType(items[i]))
  }

  /**
   * `ResolveArrayTypes<TupleToUnion<T>[]>` read as an element type: the union
   * of the items' types. With no items the inferred `V` is `unknown`, which
   * admits anything.
   */
  function ItemsElement(items: seq<Schema>): (t: Ty)
    ensures |items| == 0 ==> AdmitsAnything(t)
    ensures |items| > 0 ==> forall x :: Inhabits(x, t) <==>
              exists i | 0 <= i < |items| :: items[i].Ext? && Inhabits(x, items[i].v)
  {
    if |items| == 0 then Any
    else
      var ts := ItemTypes(items);
      assert forall x, i | 0 <= i < |items| :: Inhabits(x, ts[i]) <==> items[i].Ext? && Inhabits(x, items[i].v);
      JoinAll(ts)
  }

  /**
   * `items(s1, ..., sn)` on an array schema: `ExtendedArraySchema<element[], O>`.
   * The element type is rebuilt from the items alone, discarding what the
   * array held before; the items' own optionality never adds `undefined` to
   * it; the array's `O` is kept and `items` stays callable.
   */
  function Items(s: Schema, items: seq<Schema>): (r: Schema)
    requires s.Ext? && s.flavor == ArrayFlavor
    ensures r.Ext? && r.optional == s.optional && r.flavor == ArrayFlavor && r.v.ArrayOf?
    ensures |items| > 0 ==> forall x :: Inhabits(x, r.v.elem) <==>
              exists i | 0 <= i < |items| :: items[i].Ext? && Inhabits(x, items[i].v)
    ensures |items| > 0 && (forall i | 0 <= i < |items| :: items[i].Ext? && !Inhabits(VUndefined, items[i].v)) ==>
              !Inhabits(VUndefined, r.v.elem)
  {
    Ext(ArrayOf(ItemsElement(items)), s.optional, ArrayFlavor)
  }

  /** A later `items` call replaces the element type an earlier one set. */
  lemma ItemsReplace(s: Schema, a: seq<Schema>, b: seq<Schema>)
    requires s.Ext? && s.flavor == ArrayFlavor
    ensures Items(Items(s, a), b) == Items(s, b)
  {
  }

  /** The order and repetition of the items do not change the result. */
  lemma ItemsOrderFree(s: Schema, a: seq<Schema>, b: seq<Schema>)
    requires s.Ext? && s.flavor == ArrayFlavor
    requires |a| > 0 && |b| > 0
    requires forall t :: t in a <==> t in b
    ensures Items(s, a) == Items(s, b)
  {
    var xs, ys := ItemTypes(a), ItemTypes(b);
    forall t
      ensures t in xs <==> t in ys
    {
      if t in xs {
        var i :| 0 <= i < |a| && xs[i] == t;
        assert a[i] in b;
        var j :| 0 <= j < |b| && b[j] == a[i];
        assert ys[j] == t;
      }
      if t in ys {
        var j :| 0 <= j < |b| && ys[j] == t;
        assert b[j] in a;
        var i :| 0 <= i < |a| && a[i] == b[j];
        assert xs[i] == t;
      }
    }
    JoinAllSameElements(xs, ys);
  }

  /** Any array schema admits `undefined` exactly when it is optional; every element of an admitted array is an item's value. */
  lemma ItemsAdmits(s: Schema, items: seq<Schema>, x: Value)
    requires s.Ext? && s.flavor == ArrayFlavor && |items| > 0
    ensures Inhabits(x, ExtractType(Items(s, items))) <==>
              || (s.optional && x == VUndefined)
              || (x.VArr? && forall j | 0 <= j < |x.elems| ::
                    exists i | 0 <= i < |items| :: items[i].Ext? && Inhabits(x.elems[j], items[i].v))
  {
    var r := Items(s, items);
    var e := r.v.elem;
    assert Inhabits(x, ExtractType(r)) <==> Inhabits(x, ArrayOf(e)) || (s.optional && x == VUndefined);
    assert Inhabits(x, ArrayOf(e)) <==> x.VArr? && forall j | 0 <= j < |x.elems| :: Inhabits(x.elems[j], e);
    if x.VArr? {
      forall j | 0 <= j < |x.elems|
        ensures Inhabits(x.elems[j], e) <==> exists i | 0 <= i < |items| :: items[i].Ext? && Inhabits(x.elems[j], items[i].v)
      {
      }
    }
  }
}
