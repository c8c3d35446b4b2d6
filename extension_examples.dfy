/**
 * The generation 2 type tests (src/spec/), built with the model's
 * constructors and modifiers: each lemma states which of the test's values
 * the extracted type admits, and which of the values the test leaves
 * commented out as type errors it rejects.
 */
module ExtensionExamples {
  import opened Types
  import opened ExtensionModel

  function S(s: string): Value { VLit(LStr(s)) }
  function N(n: int): Value { VLit(LNum(n)) }
  function B(b: bool): Value { VLit(LBool(b)) }

  /** `valid` on a primitive-typed schema with literal values admits exactly them, and `undefined` when optional. */
  lemma ValidLiterals(s: Schema, vs: seq<Value>, x: Value)
    requires s.Ext? && HasPrimitive(s.v) && |vs| > 0
    requires forall i | 0 <= i < |vs| :: Inhabits(vs[i], s.v) && Scalar(vs[i])
    ensures Inhabits(x, ExtractType(Valid(s, vs))) <==> x in vs || (s.optional && x == VUndefined)
  {
  }

  /** The element type of a two-item `items` call holds what either item's `V` holds. */
  lemma ItemsPair(s: Schema, a: Schema, b: Schema, ta: Ty, tb: Ty)
    requires s.Ext? && s.flavor == ArrayFlavor
    requires a.Ext? && a.v == ta && b.Ext? && b.v == tb
    ensures Items(s, [a, b]).v.ArrayOf?
    ensures AdmitsEither(Items(s, [a, b]).v.elem, ta, tb)
  {
    var items := [a, b];
    var r := Items(s, items);
    forall x
      ensures Inhabits(x, r.v.elem) <==> Inhabits(x, ta) || Inhabits(x, tb)
    {
      assert Inhabits(x, r.v.elem) <==> exists i | 0 <= i < |items| :: items[i].Ext? && Inhabits(x, items[i].v);
      if Inhabits(x, ta) {
        assert items[0].Ext? && Inhabits(x, items[0].v);
      }
      if Inhabits(x, tb) {
        assert items[1].Ext? && Inhabits(x, items[1].v);
      }
    }
  }

  // ---------------------------------------------------------------------------
  // Primitive schemas
  // ---------------------------------------------------------------------------

  /** `number()` is `number | undefined`: 1, 2 and `undefined`, not `null`. */
  lemma NumberTest()
    ensures Inhabits(N(1), ExtractType(NumberSchema())) && Inhabits(N(2), ExtractType(NumberSchema()))
    ensures Inhabits(VUndefined, ExtractType(NumberSchema()))
    ensures !Inhabits(VNull, ExtractType(NumberSchema()))
  {
  }

  /** `boolean()` is `boolean | undefined`. */
  lemma BooleanTest()
    ensures Inhabits(B(true), ExtractType(BooleanSchema())) && Inhabits(VUndefined, ExtractType(BooleanSchema()))
    ensures !Inhabits(VNull, ExtractType(BooleanSchema()))
  {
  }

  /** `date()` is `Date | undefined`. */
  lemma DateTest()
    ensures Inhabits(VDate, ExtractType(DateSchema())) && Inhabits(VUndefined, ExtractType(DateSchema()))
    ensures !Inhabits(VNull, ExtractType(DateSchema()))
  {
  }

  /** `func()` is `Function | undefined`. */
  lemma FunctionTest()
    ensures Inhabits(VFunc, ExtractType(FuncSchema())) && Inhabits(VUndefined, ExtractType(FuncSchema()))
    ensures !Inhabits(VNull, ExtractType(FuncSchema()))
  {
  }

  /** `string()` is `string | undefined`. */
  lemma StringTest()
    ensures Inhabits(S("string"), ExtractType(StringSchema())) && Inhabits(VUndefined, ExtractType(StringSchema()))
    ensures !Inhabits(VNull, ExtractType(StringSchema()))
  {
  }

  /** `any()` is `any | undefined`. */
  lemma AnyTest()
    ensures Inhabits(N(2), ExtractType(AnySchema())) && Inhabits(VUndefined, ExtractType(AnySchema()))
    ensures Inhabits(S("string"), ExtractType(AnySchema()))
  {
  }

  // ---------------------------------------------------------------------------
  // Presence and value modifiers
  // ---------------------------------------------------------------------------

  /** `number().required()` is `number`: `undefined` is no longer admitted. */
  lemma RequiredTest()
    ensures Inhabits(N(2), ExtractType(Required(NumberSchema())))
    ensures !Inhabits(VUndefined, ExtractType(Required(NumberSchema())))
  {
  }

  /** `number().required().optional()` is `number | undefined` again. */
  lemma OptionalTest()
    ensures Inhabits(N(2), ExtractType(Optional(Required(NumberSchema()))))
    ensures Inhabits(VUndefined, ExtractType(Optional(Required(NumberSchema()))))
  {
  }

  /** `number().required().default(2)` is `number | undefined`: `default` makes the schema optional. */
  lemma DefaultTest(n: int)
    ensures Inhabits(N(n), ExtractType(Default(Required(NumberSchema()), N(2))))
    ensures Inhabits(VUndefined, ExtractType(Default(Required(NumberSchema()), N(2))))
  {
  }

  /** `number().allow(null)` is `number | null | undefined`. */
  lemma AllowTest(n: int)
    ensures Inhabits(N(n), ExtractType(Allow(NumberSchema(), [VNull])))
    ensures Inhabits(VUndefined, ExtractType(Allow(NumberSchema(), [VNull])))
    ensures Inhabits(VNull, ExtractType(Allow(NumberSchema(), [VNull])))
  {
    AllowAt(NumberSchema(), [VNull], VNull);
    AllowAt(NumberSchema(), [VNull], N(n));
  }

  function TwoThreeFour(): Schema
  {
    Valid(NumberSchema(), [N(2), N(3), N(4)])
  }

  /** `number().valid(2, 3, 4)` is `2 | 3 | 4 | undefined` ... */
  lemma ValidTest(x: Value)
    ensures Inhabits(x, ExtractType(TwoThreeFour())) <==> x in [N(2), N(3), N(4)] || x == VUndefined
  {
    var vs := [N(2), N(3), N(4)];
    assert forall i | 0 <= i < |vs| :: Inhabits(vs[i], Num) && Scalar(vs[i]);
    ValidLiterals(NumberSchema(), vs, x);
  }

  /** ... so 5 is rejected. */
  lemma ValidRejects()
    ensures !Inhabits(N(5), ExtractType(TwoThreeFour()))
  {
    ValidTest(N(5));
  }

  // ---------------------------------------------------------------------------
  // Arrays
  // ---------------------------------------------------------------------------

  /** A type holding exactly the arrays and `undefined` admits `[]`, `[1, '2', null]` and `undefined`, not `null`. */
  lemma ArraysOrUndefined(t: Ty)
    requires forall x :: Inhabits(x, t) <==> x.VArr? || x == VUndefined
    ensures Inhabits(VArr([]), t)
    ensures Inhabits(VArr([N(1), S("2"), VNull]), t)
    ensures Inhabits(VUndefined, t)
    ensures !Inhabits(VNull, t)
  {
  }

  /** `array()` is `any[] | undefined`. */
  lemma ArrayTest()
    ensures Inhabits(VArr([]), ExtractType(ArraySchema()))
    ensures Inhabits(VArr([N(1), S("2"), VNull]), ExtractType(ArraySchema()))
    ensures Inhabits(VUndefined, ExtractType(ArraySchema()))
    ensures !Inhabits(VNull, ExtractType(ArraySchema()))
  {
    ArraysOrUndefined(ExtractType(ArraySchema()));
  }

  /** `t` is `e[] | undefined`. */
  ghost predicate OptionalArray(t: Ty, e: Ty)
  {
    forall x :: Inhabits(x, t) <==> x == VUndefined || Inhabits(x, ArrayOf(e))
  }

  /** `e` is `number | string`. */
  ghost predicate NumbersOrStrings(e: Ty)
  {
    forall x :: Inhabits(x, e) <==> x.VLit? && (x.lit.LNum? || x.lit.LStr?)
  }

  lemma NumberOrStringPair(e: Ty)
    requires AdmitsEither(e, Num, Str)
    ensures NumbersOrStrings(e)
  {
  }

  /** An optional array schema extracts to `e[] | undefined`, `e` its element type. */
  lemma OptionalArrayExtract(r: Schema)
    requires r.Ext? && r.optional && r.v.ArrayOf?
    ensures OptionalArray(ExtractType(r), r.v.elem)
  {
  }

  /** An array whose elements `e` admits is admitted by `e[] | undefined` ... */
  lemma OptionalArrayAdmits(t: Ty, e: Ty, xs: seq<Value>)
    requires OptionalArray(t, e) && ElemsAdmit(xs, e)
    ensures Inhabits(VArr(xs), t)
  {
  }

  /** ... and one with an element `e` rejects is not. */
  lemma OptionalArrayRejects(t: Ty, e: Ty, xs: seq<Value>, k: nat)
    requires OptionalArray(t, e) && k < |xs| && !Inhabits(xs[k], e)
    ensures !Inhabits(VArr(xs), t)
  {
    assert !ElemsAdmit(xs, e);
  }

  function NumberOrString(): Schema
  {
    Items(ArraySchema(), [Required(NumberSchema()), Required(StringSchema())])
  }

  /** The element type of `array().items(number().required(), string().required())`: numbers and strings. */
  lemma NumberOrStringElements()
    ensures NumberOrString().v.ArrayOf?
    ensures NumbersOrStrings(NumberOrString().v.elem)
  {
    ItemsPair(ArraySchema(), Required(NumberSchema()), Required(StringSchema()), Num, Str);
    NumberOrStringPair(NumberOrString().v.elem);
  }

  /** `(number | string)[] | undefined` admits `[]`, `[1, '2']` and `undefined` ... */
  lemma NumberStringArrays(t: Ty, e: Ty)
    requires OptionalArray(t, e) && NumbersOrStrings(e)
    ensures Inhabits(VArr([]), t)
    ensures Inhabits(VArr([N(1), S("2")]), t)
    ensures Inhabits(VUndefined, t)
  {
    var good := [N(1), S("2")];
    OptionalArrayAdmits(t, e, []);
    assert Inhabits(good[0], e) && Inhabits(good[1], e);
    OptionalArrayAdmits(t, e, good);
  }

  /** ... not a date element nor `null`. */
  lemma NumberStringRejects(t: Ty, e: Ty)
    requires OptionalArray(t, e) && NumbersOrStrings(e)
    ensures !Inhabits(VArr([N(1), S("2"), VDate]), t)
    ensures !Inhabits(VNull, t)
  {
    var bad := [N(1), S("2"), VDate];
    assert !Inhabits(bad[2], e);
    OptionalArrayRejects(t, e, bad, 2);
  }

  /** `array().items(number().required(), string().required())` is `(number | string)[] | undefined`. */
  lemma ArrayItemsTest()
    ensures Inhabits(VArr([]), ExtractType(NumberOrString()))
    ensures Inhabits(VArr([N(1), S("2")]), ExtractType(NumberOrString()))
    ensures Inhabits(VUndefined, ExtractType(NumberOrString()))
    ensures !Inhabits(VArr([N(1), S("2"), VDate]), ExtractType(NumberOrString()))
    ensures !Inhabits(VNull, ExtractType(NumberOrString()))
  {
    var r := NumberOrString();
    NumberOrStringElements();
    OptionalArrayExtract(r);
    NumberStringArrays(ExtractType(r), r.v.elem);
    NumberStringRejects(ExtractType(r), r.v.elem);
  }

  function Inner(): Schema
  {
    Required(Items(ArraySchema(), [NumberSchema(), StringSchema()]))
  }

  function Nested(): Schema
  {
    Items(ArraySchema(), [Inner(), Required(StringSchema())])
  }

  /**
   * The inner array's elements are numbers and strings only: the optional
   * `number()` and `string()` items add no `undefined`.
   */
  lemma InnerElements()
    ensures Inner().v.ArrayOf? && !Inner().optional
    ensures NumbersOrStrings(Inner().v.elem)
  {
    var r := Items(ArraySchema(), [NumberSchema(), StringSchema()]);
    ItemsPair(ArraySchema(), NumberSchema(), StringSchema(), Num, Str);
    assert Inner().v == r.v;
    NumberOrStringPair(r.v.elem);
  }

  /** `oe` is `ie[] | string` and `ie` is `number | string`. */
  ghost predicate NestedElems(oe: Ty, ie: Ty)
  {
    NumbersOrStrings(ie) && AdmitsEither(oe, ArrayOf(ie), Str)
  }

  /** `((number | string)[] | string)[] | undefined` admits `[]`, `['2']` and `undefined` ... */
  lemma NestedAdmitsFlat(t: Ty, oe: Ty, ie: Ty)
    requires OptionalArray(t, oe) && NestedElems(oe, ie)
    ensures Inhabits(VArr([]), t)
    ensures Inhabits(VArr([S("2")]), t)
    ensures Inhabits(VUndefined, t)
  {
    var one := [S("2")];
    assert Inhabits(one[0], oe);
    OptionalArrayAdmits(t, oe, one);
    OptionalArrayAdmits(t, oe, []);
  }

  /** ... and `['2', ['test', 2]]`. */
  lemma NestedAdmits(t: Ty, oe: Ty, ie: Ty)
    requires OptionalArray(t, oe) && NestedElems(oe, ie)
    ensures Inhabits(VArr([S("2"), VArr([S("test"), N(2)])]), t)
  {
    var pair := [S("test"), N(2)];
    assert Inhabits(pair[0], ie) && Inhabits(pair[1], ie);
    assert ElemsAdmit(pair, ie);
    var outer := [S("2"), VArr(pair)];
    assert Inhabits(outer[0], oe) && Inhabits(outer[1], oe);
    OptionalArrayAdmits(t, oe, outer);
  }

  /** An inner array holding something other than a number or a string is rejected. */
  lemma NestedRejectsInner(t: Ty, oe: Ty, ie: Ty, bad: seq<Value>, k: nat)
    requires OptionalArray(t, oe) && NestedElems(oe, ie)
    requires k < |bad| && !(bad[k].VLit? && (bad[k].lit.LNum? || bad[k].lit.LStr?))
    ensures !Inhabits(VArr([S("2"), VArr(bad)]), t)
  {
    assert !Inhabits(bad[k], ie);
    assert !ElemsAdmit(bad, ie);
    var outer := [S("2"), VArr(bad)];
    assert !Inhabits(outer[1], oe);
    OptionalArrayRejects(t, oe, outer, 1);
  }

  /** ... and rejects `undefined` or a date inside the inner array, and `null`. */
  lemma NestedRejects(t: Ty, oe: Ty, ie: Ty)
    requires OptionalArray(t, oe) && NestedElems(oe, ie)
    ensures !Inhabits(VArr([S("2"), VArr([S("test"), N(2), VUndefined])]), t)
    ensures !Inhabits(VArr([S("2"), VArr([S("test"), N(2), VDate])]), t)
    ensures !Inhabits(VNull, t)
  {
    NestedRejectsInner(t, oe, ie, [S("test"), N(2), VUndefined], 2);
    NestedRejectsInner(t, oe, ie, [S("test"), N(2), VDate], 2);
  }

  /** The test's schema has that shape. */
  lemma NestedHasShape()
    ensures Nested().v.ArrayOf? && Inner().v.ArrayOf?
    ensures OptionalArray(ExtractType(Nested()), Nested().v.elem)
    ensures NestedElems(Nested().v.elem, Inner().v.elem)
  {
    InnerElements();
    ItemsPair(ArraySchema(), Inner(), Required(StringSchema()), ArrayOf(Inner().v.elem), Str);
    OptionalArrayExtract(Nested());
  }

  /**
   * `array().items(array().items(number(), string()).required(), string().required())`
   * is `((number | string)[] | string)[] | undefined`.
   */
  lemma NestedArrayTest()
    ensures Inhabits(VArr([]), ExtractType(Nested()))
    ensures Inhabits(VArr([S("2")]), ExtractType(Nested()))
    ensures Inhabits(VArr([S("2"), VArr([S("test"), N(2)])]), ExtractType(Nested()))
    ensures Inhabits(VUndefined, ExtractType(Nested()))
  {
    NestedHasShape();
    NestedAdmitsFlat(ExtractType(Nested()), Nested().v.elem, Inner().v.elem);
    NestedAdmits(ExtractType(Nested()), Nested().v.elem, Inner().v.elem);
  }

  /** It rejects the values the test leaves commented out. */
  lemma NestedArrayRejects()
    ensures !Inhabits(VArr([S("2"), VArr([S("test"), N(2), VUndefined])]), ExtractType(Nested()))
    ensures !Inhabits(VArr([S("2"), VArr([S("test"), N(2), VDate])]), ExtractType(Nested()))
    ensures !Inhabits(VNull, ExtractType(Nested()))
  {
    NestedHasShape();
    NestedRejects(ExtractType(Nested()), Nested().v.elem, Inner().v.elem);
  }
}
