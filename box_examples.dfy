/**
 * The generation 1 test schemas of index.spec.ts, built with the model's
 * constructors and modifiers, and the values those tests assign to the
 * extracted types.
 *
 * Each test is split in two: a lemma about the shape of the test's schema,
 * over arbitrary member schemas, and the test's instance of it.
 */
module BoxExamples {
  import opened Types
  import opened BoxModel

  function S(s: string): Value { VLit(LStr(s)) }
  function N(n: int): Value { VLit(LNum(n)) }
  function B(b: bool): Value { VLit(LBool(b)) }

  /** A two-element array is admitted when both elements are. */
  lemma ArrayPair(x: Value, y: Value, e: Ty)
    requires Inhabits(x, e) && Inhabits(y, e)
    ensures Inhabits(VArr([x, y]), ArrayOf(e))
  {
    var a := VArr([x, y]);
    assert forall i | 0 <= i < |a.elems| :: a.elems[i] == x || a.elems[i] == y;
  }

  /** A one-element array is rejected when its element is. */
  lemma ArrayOneRejected(x: Value, e: Ty)
    requires !Inhabits(x, e)
    ensures !Inhabits(VArr([x]), ArrayOf(e))
  {
    assert VArr([x]).elems[0] == x;
  }

  /** Some element of a two-element list satisfies `p` iff one of the two does. */
  lemma ExistsTwo(p: Schema -> bool, a: Schema, b: Schema)
    ensures (exists i | 0 <= i < |[a, b]| :: p([a, b][i])) <==> p(a) || p(b)
  {
    var l := [a, b];
    if p(a) {
      assert p(l[0]);
    } else if p(b) {
      assert p(l[1]);
    } else {
      assert forall i | 0 <= i < |l| :: l[i] == a || l[i] == b;
    }
  }

  /** Some element of a three-element list satisfies `p` iff one of the three does. */
  lemma ExistsThree(p: Schema -> bool, a: Schema, b: Schema, c: Schema)
    ensures (exists i | 0 <= i < |[a, b, c]| :: p([a, b, c][i])) <==> p(a) || p(b) || p(c)
  {
    var l := [a, b, c];
    if p(a) {
      assert p(l[0]);
    } else if p(b) {
      assert p(l[1]);
    } else if p(c) {
      assert p(l[2]);
    } else {
      assert forall i | 0 <= i < |l| :: l[i] == a || l[i] == b || l[i] == c;
    }
  }

  /** Primitive schemas extract to their base types; `any()` to `any` (index.spec.ts:7-25). */
  lemma PrimitiveSchemas()
    ensures ExtractType(AnySchema) == Any
    ensures ExtractType(BooleanSchema()) == Bool && Inhabits(B(true), Bool)
    ensures ExtractType(StringSchema()) == Str && Inhabits(S("string"), Str)
    ensures ExtractType(DateSchema()) == Date && Inhabits(VDate, Date)
    ensures ExtractType(NumberSchema()) == Num && Inhabits(N(5), Num)
  {
  }

  // ---------------------------------------------------------------------------
  // Objects (index.spec.ts:27-47)
  // ---------------------------------------------------------------------------

  /** The key map of `userAsObject`, over arbitrary member schemas. */
  function UserShape(fullName: Schema, shortDesc: Schema, isEnabled: Schema,
                     hasCredentials: Schema, createdAt: Schema, priority: Schema): map<string, Schema>
  {
    map[
      "full_name" := fullName,
      "short_desc" := shortDesc,
      "is_enabled" := isEnabled,
      "has_credentials" := hasCredentials,
      "created_at" := createdAt,
      "priority" := priority
    ]
  }

  /** `has_credentials: boolean().valid(true).required()`. */
  function Credentials(): Schema
  {
    Required(Valid(BooleanSchema(), [B(true)]))
  }

  function UserAsObject(): map<string, Schema>
  {
    UserShape(Required(StringSchema()), StringSchema(), BooleanSchema(), Credentials(), DateSchema(), NumberSchema())
  }

  lemma UserShapeRequired(a: Schema, b: Schema, c: Schema, d: Schema, e: Schema, f: Schema)
    requires IsRequired(a) && IsOptional(b) && IsOptional(c) && IsRequired(d) && IsOptional(e) && IsOptional(f)
    ensures ExtractMap(UserShape(a, b, c, d, e, f)).required.Keys == {"full_name", "has_credentials"}
  {
    var m := UserShape(a, b, c, d, e, f);
    forall k
      ensures k in ExtractMap(m).required <==> k in {"full_name", "has_credentials"}
    {
      ExtractMapPartition(m, k);
    }
  }

  lemma UserShapeOptional(a: Schema, b: Schema, c: Schema, d: Schema, e: Schema, f: Schema)
    requires IsRequired(a) && IsOptional(b) && IsOptional(c) && IsRequired(d) && IsOptional(e) && IsOptional(f)
    ensures ExtractMap(UserShape(a, b, c, d, e, f)).optional.Keys == {"short_desc", "is_enabled", "created_at", "priority"}
  {
    var m := UserShape(a, b, c, d, e, f);
    forall k
      ensures k in ExtractMap(m).optional <==> k in {"short_desc", "is_enabled", "created_at", "priority"}
    {
      ExtractMapPartition(m, k);
    }
  }

  /** The test's value leaves out `short_desc` and fills every other member. */
  function UserValue(): Value
  {
    VObj(map["created_at" := VDate, "full_name" := S("string"), "is_enabled" := B(true),
             "priority" := N(5), "has_credentials" := B(true)])
  }

  /** The members of the shape, key by key. */
  lemma UserShapeAt(a: Schema, b: Schema, c: Schema, d: Schema, e: Schema, f: Schema)
    ensures var m := UserShape(a, b, c, d, e, f);
      && m["full_name"] == a && m["short_desc"] == b && m["is_enabled"] == c
      && m["has_credentials"] == d && m["created_at"] == e && m["priority"] == f
  {
  }

  /** The properties of the test's value, key by key. */
  lemma UserValueAt()
    ensures UserValue().VObj?
    ensures forall k :: k in UserValue().fields <==> k in {"created_at", "full_name", "is_enabled", "priority", "has_credentials"}
    ensures var x := UserValue().fields;
      && x["created_at"] == VDate && x["full_name"] == S("string") && x["is_enabled"] == B(true)
      && x["priority"] == N(5) && x["has_credentials"] == B(true)
  {
  }

  /** The test's value fills every required member of the shape ... */
  lemma UserShapeSampleRequired(a: Schema, b: Schema, c: Schema, d: Schema, e: Schema, f: Schema)
    requires IsOptional(b) && IsOptional(c) && IsOptional(e) && IsOptional(f)
    requires Inhabits(S("string"), ExtractType(a)) && Inhabits(B(true), ExtractType(d))
    ensures var m, x := UserShape(a, b, c, d, e, f), UserValue();
      forall k | k in m && IsRequired(m[k]) :: k in x.fields && Inhabits(x.fields[k], ExtractType(m[k]))
  {
    var m, x := UserShape(a, b, c, d, e, f), UserValue();
    UserShapeAt(a, b, c, d, e, f);
    UserValueAt();
    forall k | k in m && IsRequired(m[k])
      ensures k in x.fields && Inhabits(x.fields[k], ExtractType(m[k]))
    {
      assert k == "full_name" || k == "has_credentials";
    }
  }

  /** ... and each optional member it fills holds its value. */
  lemma UserShapeSampleOptional(a: Schema, b: Schema, c: Schema, d: Schema, e: Schema, f: Schema)
    requires Inhabits(S("string"), ExtractType(a)) && Inhabits(B(true), ExtractType(c))
    requires Inhabits(B(true), ExtractType(d)) && Inhabits(VDate, ExtractType(e)) && Inhabits(N(5), ExtractType(f))
    ensures var m, x := UserShape(a, b, c, d, e, f), UserValue();
      forall k | k in m && IsOptional(m[k]) && k in x.fields :: x.fields[k] == VUndefined || Inhabits(x.fields[k], ExtractType(m[k]))
  {
    var m, x := UserShape(a, b, c, d, e, f), UserValue();
    UserShapeAt(a, b, c, d, e, f);
    UserValueAt();
    forall k | k in m && IsOptional(m[k]) && k in x.fields
      ensures x.fields[k] == VUndefined || Inhabits(x.fields[k], ExtractType(m[k]))
    {
      assert k in {"created_at", "full_name", "is_enabled", "priority", "has_credentials"};
    }
  }

  lemma UserShapeSample(a: Schema, b: Schema, c: Schema, d: Schema, e: Schema, f: Schema)
    requires IsRequired(a) && IsOptional(b) && IsOptional(c) && IsRequired(d) && IsOptional(e) && IsOptional(f)
    requires Inhabits(S("string"), ExtractType(a)) && Inhabits(B(true), ExtractType(c))
    requires Inhabits(B(true), ExtractType(d)) && Inhabits(VDate, ExtractType(e)) && Inhabits(N(5), ExtractType(f))
    ensures Inhabits(UserValue(), ExtractType(SchemaMap(UserShape(a, b, c, d, e, f))))
  {
    UserShapeSampleRequired(a, b, c, d, e, f);
    UserShapeSampleOptional(a, b, c, d, e, f);
    ExtractMapAdmits(UserShape(a, b, c, d, e, f), UserValue());
  }

  /** `object(map)` extracts as the bare map; `full_name` and `has_credentials` are its required properties. */
  lemma UserRequiredMembers()
    ensures ExtractType(ObjectSchema(UserAsObject())) == ExtractType(SchemaMap(UserAsObject()))
    ensures ExtractType(SchemaMap(UserAsObject())).required.Keys == {"full_name", "has_credentials"}
  {
    CredentialsTrue();
    UserShapeRequired(Required(StringSchema()), StringSchema(), BooleanSchema(), Credentials(), DateSchema(), NumberSchema());
  }

  /** The members without `required()` are optional properties. */
  lemma UserOptionalMembers()
    ensures ExtractType(SchemaMap(UserAsObject())).optional.Keys == {"short_desc", "is_enabled", "created_at", "priority"}
  {
    CredentialsTrue();
    UserShapeOptional(Required(StringSchema()), StringSchema(), BooleanSchema(), Credentials(), DateSchema(), NumberSchema());
  }

  /** The test's value is admitted by the extracted type. */
  lemma UserSample()
    ensures Inhabits(UserValue(), ExtractType(SchemaMap(UserAsObject())))
  {
    CredentialsTrue();
    UserShapeSample(Required(StringSchema()), StringSchema(), BooleanSchema(), Credentials(), DateSchema(), NumberSchema());
  }

  /** `boolean().valid(true).required()` is a required member holding `true`. */
  lemma CredentialsTrue()
    ensures IsRequired(Credentials())
    ensures Inhabits(B(true), ExtractType(Credentials()))
  {
  }

  // ---------------------------------------------------------------------------
  // Arrays (index.spec.ts:49-53)
  // ---------------------------------------------------------------------------

  /** `array().items(a)` holds exactly the elements of `a`. */
  lemma ItemsOnce(a: Schema, x: Value)
    ensures ExtractType(Items(ArraySchema(), a)).ArrayOf?
    ensures Inhabits(x, ExtractType(Items(ArraySchema(), a)).elem) <==> Inhabits(x, ExtractType(a))
  {
  }

  /** A further `items(b)` adds the elements of `b`. */
  lemma ItemsAgain(s: Schema, b: Schema, x: Value)
    requires s.Decorated? && s.kind == ArrayKind && s.n.Box?
    ensures ExtractType(Items(s, b)).ArrayOf?
    ensures Inhabits(x, ExtractType(Items(s, b)).elem) <==> Inhabits(x, ExtractType(s).elem) || Inhabits(x, ExtractType(b))
  {
  }

  /** `array().items(a).items(b)` holds the elements of either item. */
  lemma ItemsTwice(a: Schema, b: Schema, x: Value)
    ensures ExtractType(Items(Items(ArraySchema(), a), b)).ArrayOf?
    ensures Inhabits(x, ExtractType(Items(Items(ArraySchema(), a), b)).elem) <==>
              Inhabits(x, ExtractType(a)) || Inhabits(x, ExtractType(b))
  {
    ItemsOnce(a, x);
    ItemsAgain(Items(ArraySchema(), a), b, x);
  }

  function RolesSchema(): Schema
  {
    Items(Items(ArraySchema(), Valid(StringSchema(), [S("admin"), S("member"), S("guest")])), NumberSchema())
  }

  /** `array().items(string().valid(vs)).items(number())` holds the given strings and any number. */
  lemma ValidStringsOrNumbers(vs: seq<Value>, x: Value)
    requires |vs| > 0 && forall i | 0 <= i < |vs| :: vs[i].VLit? && vs[i].lit.LStr?
    ensures ExtractType(Items(Items(ArraySchema(), Valid(StringSchema(), vs)), NumberSchema())).ArrayOf?
    ensures Inhabits(x, ExtractType(Items(Items(ArraySchema(), Valid(StringSchema(), vs)), NumberSchema())).elem) <==>
              x in vs || (x.VLit? && x.lit.LNum?)
  {
    var v := Valid(StringSchema(), vs);
    assert Inhabits(x, ExtractType(v)) <==> x in vs;
    assert Inhabits(x, ExtractType(NumberSchema())) <==> x.VLit? && x.lit.LNum?;
    ItemsTwice(v, NumberSchema(), x);
  }

  /** `array().items(string().valid([...])).items(number())` holds the three role names and any number. */
  lemma RolesElements(x: Value)
    ensures ExtractType(RolesSchema()).ArrayOf?
    ensures Inhabits(x, ExtractType(RolesSchema()).elem) <==>
              x in [S("admin"), S("member"), S("guest")] || (x.VLit? && x.lit.LNum?)
  {
    ValidStringsOrNumbers([S("admin"), S("member"), S("guest")], x);
  }

  /** The test's value `['admin', 2]` is admitted. */
  lemma RolesSample()
    ensures Inhabits(VArr([S("admin"), N(2)]), ExtractType(RolesSchema()))
  {
    RolesElements(S("admin"));
    RolesElements(N(2));
    ArrayPair(S("admin"), N(2), ExtractType(RolesSchema()).elem);
  }

  /** A role outside the `valid` list is not. */
  lemma RolesRejects()
    ensures !Inhabits(VArr([S("owner")]), ExtractType(RolesSchema()))
  {
    var t := ExtractType(RolesSchema());
    RolesElements(S("owner"));
    NotARole();
    ArrayOneRejected(S("owner"), t.elem);
  }

  /** `'owner'` is neither one of the three role names nor a number. */
  lemma NotARole()
    ensures !(S("owner") in [S("admin"), S("member"), S("guest")] || (S("owner").VLit? && S("owner").lit.LNum?))
  {
    assert "owner"[0] == 'o' && "admin"[0] == 'a' && "member"[0] == 'm' && "guest"[0] == 'g';
  }

  // ---------------------------------------------------------------------------
  // Defaults (index.spec.ts:104-120)
  // ---------------------------------------------------------------------------

  /** `number().default(2)` is a required member that holds any number. */
  lemma NumberDefault(n: int)
    ensures IsRequired(Default(NumberSchema(), N(2)))
    ensures Inhabits(N(n), ExtractType(Default(NumberSchema(), N(2))))
  {
  }

  /** `array().default([5])` is a required member whose elements are numbers, so `[1, 2]` is admitted. */
  lemma ArrayDefault()
    ensures IsRequired(DefaultArray(ArraySchema(), [N(5)]))
    ensures Inhabits(VArr([N(1), N(2)]), ExtractType(DefaultArray(ArraySchema(), [N(5)])))
  {
    var r := DefaultArray(ArraySchema(), [N(5)]);
    assert Inhabits(N(1), Widen(N(5))) && Inhabits(N(2), Widen(N(5)));
    assert Inhabits(N(1), ExtractType(r).elem) && Inhabits(N(2), ExtractType(r).elem);
    ArrayPair(N(1), N(2), ExtractType(r).elem);
  }

  /** A one-member object is admitted by a map whose only member is optional and holds the value. */
  lemma OneOptionalMember(key: string, s: Schema, v: Value)
    requires IsOptional(s) && Inhabits(v, ExtractType(s))
    ensures Inhabits(VObj(map[key := v]), ExtractMap(map[key := s]))
  {
    ExtractMapAdmits(map[key := s], VObj(map[key := v]));
  }

  /**
   * `object({ number: number() }).default({ string: string() })` is required
   * and admits `{ number: 5 }`.
   */
  lemma ObjectDefault()
    ensures IsRequired(DefaultObject(ObjectSchema(map["number" := NumberSchema()]), map["string" := StringSchema()]))
    ensures Inhabits(VObj(map["number" := N(5)]),
                     ExtractType(DefaultObject(ObjectSchema(map["number" := NumberSchema()]), map["string" := StringSchema()])))
  {
    OneOptionalMember("number", NumberSchema(), N(5));
  }

  // ---------------------------------------------------------------------------
  // Alternatives (index.spec.ts:144-158)
  // ---------------------------------------------------------------------------

  /** `alt()` without branches holds nothing. */
  lemma EmptyAlternatives(x: Value)
    ensures !Inhabits(x, ExtractType(Alternatives([])))
  {
  }

  /** `alt().try(a, b)` holds what either branch holds, `ta` and `tb` being their `extractOne`. */
  lemma TryTwo(a: Schema, b: Schema, ta: Ty, tb: Ty)
    requires ExtractOne(a) == ta && ExtractOne(b) == tb
    ensures AdmitsEither(ExtractType(Try(Alternatives([]), [a, b])), ta, tb)
  {
    forall x
      ensures Inhabits(x, ExtractType(Try(Alternatives([]), [a, b]))) <==> Inhabits(x, ta) || Inhabits(x, tb)
    {
      EmptyAlternatives(x);
      ExistsTwo(s => Inhabits(x, ExtractOne(s)), a, b);
    }
  }

  /** `number().valid(1, 2, 3)`. */
  function OneTwoThreeSchema(): Schema
  {
    Valid(NumberSchema(), [N(1), N(2), N(3)])
  }

  function NumberStringSchema(): Schema
  {
    Try(Alternatives([]), [OneTwoThreeSchema(), StringSchema()])
  }

  /** `t` holds 1, 2 and 3 only. */
  ghost predicate OneTwoThreeOnly(t: Ty)
  {
    forall x :: Inhabits(x, t) <==> x in [N(1), N(2), N(3)]
  }

  /** `number().valid(1, 2, 3)` holds 1, 2 and 3 only. */
  lemma OneTwoThree()
    ensures OneTwoThreeOnly(ExtractOne(OneTwoThreeSchema()))
  {
    var a := OneTwoThreeSchema();
    assert ExtractOne(a) == ExtractType(a);
  }

  /** `t` being `ta | string` with `ta` holding 1, 2 and 3 only, `x` is in `t` iff one of those or a string. */
  lemma OneTwoThreeOrString(t: Ty, ta: Ty, x: Value)
    requires AdmitsEither(t, ta, Str) && OneTwoThreeOnly(ta)
    ensures Inhabits(x, t) <==> x in [N(1), N(2), N(3)] || (x.VLit? && x.lit.LStr?)
  {
  }

  /** `alt().try(number().valid(1, 2, 3), string())` holds 1, 2, 3 and any string. */
  lemma NumberStringElements(x: Value)
    ensures Inhabits(x, ExtractType(NumberStringSchema())) <==> x in [N(1), N(2), N(3)] || (x.VLit? && x.lit.LStr?)
  {
    var a, b := OneTwoThreeSchema(), StringSchema();
    TryTwo(a, b, ExtractOne(a), Str);
    OneTwoThree();
    OneTwoThreeOrString(ExtractType(NumberStringSchema()), ExtractOne(a), x);
  }

  /** The test's value `2` is admitted ... */
  lemma NumberStringNumber()
    ensures Inhabits(N(2), ExtractType(NumberStringSchema()))
  {
    NumberStringElements(N(2));
  }

  /** ... and so is `'2'` ... */
  lemma NumberStringString()
    ensures Inhabits(S("2"), ExtractType(NumberStringSchema()))
  {
    NumberStringElements(S("2"));
  }

  /** ... but a number outside the `valid` list is not. */
  lemma NumberStringRejects()
    ensures !Inhabits(N(5), ExtractType(NumberStringSchema()))
  {
    NumberStringElements(N(5));
  }

  /** `alternatives([a, b, c])` holds what any of the three holds. */
  lemma AlternativesThree(a: Schema, b: Schema, c: Schema, x: Value)
    ensures Inhabits(x, ExtractType(Alternatives([a, b, c]))) <==>
              Inhabits(x, ExtractType(a)) || Inhabits(x, ExtractType(b)) || Inhabits(x, ExtractType(c))
  {
    ExistsThree(s => Inhabits(x, ExtractType(s)), a, b, c);
  }

  function DateTime1(): Schema
  {
    Alternatives([DateSchema(), NumberSchema(), StringSchema()])
  }

  /** Alternatives over a date, a number and a string schema hold exactly dates, numbers and strings. */
  lemma DateNumberString(a: Schema, b: Schema, c: Schema, x: Value)
    requires ExtractType(a) == Date && ExtractType(b) == Num && ExtractType(c) == Str
    ensures Inhabits(x, ExtractType(Alternatives([a, b, c]))) <==> x == VDate || (x.VLit? && (x.lit.LNum? || x.lit.LStr?))
  {
    assert Inhabits(x, ExtractType(a)) <==> x == VDate;
    assert Inhabits(x, ExtractType(b)) <==> x.VLit? && x.lit.LNum?;
    assert Inhabits(x, ExtractType(c)) <==> x.VLit? && x.lit.LStr?;
    AlternativesThree(a, b, c, x);
  }

  /** `alternatives([date(), number(), string()])` holds exactly dates, numbers and strings. */
  lemma DateTimeElements(x: Value)
    ensures Inhabits(x, ExtractType(DateTime1())) <==> x == VDate || (x.VLit? && (x.lit.LNum? || x.lit.LStr?))
  {
    DateNumberString(DateSchema(), NumberSchema(), StringSchema(), x);
  }

  function WhenSchema(): Schema
  {
    When(Alternatives([]), StringSchema(), NumberSchema())
  }

  /** `alt().when(ref, { then: a, otherwise: b })` holds what either branch holds. */
  lemma WhenEither(a: Schema, b: Schema, ta: Ty, tb: Ty)
    requires ExtractType(a) == ta && ExtractType(b) == tb
    ensures AdmitsEither(ExtractType(When(Alternatives([]), a, b)), ta, tb)
  {
    forall x
      ensures Inhabits(x, ExtractType(When(Alternatives([]), a, b))) <==> Inhabits(x, ta) || Inhabits(x, tb)
    {
      EmptyAlternatives(x);
    }
  }

  /** A type that is `string | number` holds exactly strings and numbers. */
  lemma StringOrNumber(t: Ty, x: Value)
    requires AdmitsEither(t, Str, Num)
    ensures Inhabits(x, t) <==> x.VLit? && (x.lit.LNum? || x.lit.LStr?)
  {
  }

  /** `alt().when('x', { is, then: string(), otherwise: number() })` holds exactly strings and numbers. */
  lemma WhenElements(x: Value)
    ensures Inhabits(x, ExtractType(WhenSchema())) <==> x.VLit? && (x.lit.LNum? || x.lit.LStr?)
  {
    WhenEither(StringSchema(), NumberSchema(), Str, Num);
    StringOrNumber(ExtractType(WhenSchema()), x);
  }

  // ---------------------------------------------------------------------------
  // Nested required alternatives (index.spec.ts:160-170)
  // ---------------------------------------------------------------------------

  /** The inner key map of `required_alt`, over arbitrary alternatives. */
  function RequiredAltShape(dateTime: Schema, when: Schema): map<string, Schema>
    requires dateTime.Decorated? && when.Decorated?
  {
    map[
      "start_date" := Required(dateTime),
      "end_date" := dateTime,
      "value" := Required(when)
    ]
  }

  lemma RequiredAltShapeSample(dateTime: Schema, when: Schema)
    requires dateTime.Decorated? && dateTime.n.Box? && !dateTime.n.r && when.Decorated? && when.n.Box?
    requires Inhabits(VDate, ExtractType(dateTime)) && Inhabits(S("2"), ExtractType(when))
    ensures Inhabits(VObj(map["start_date" := VDate, "value" := S("2")]), ExtractType(SchemaMap(RequiredAltShape(dateTime, when))))
  {
    var m := RequiredAltShape(dateTime, when);
    var x := VObj(map["start_date" := VDate, "value" := S("2")]);
    assert ExtractType(SchemaMap(m)) == ExtractMap(m);
    assert forall k | k in m && IsRequired(m[k]) :: k in x.fields && Inhabits(x.fields[k], ExtractType(m[k]));
    ExtractMapAdmits(m, x);
  }

  /** The inner object admits the test's `{ start_date: new Date(), value: '2' }`, leaving out `end_date`. */
  lemma RequiredAltInnerSample()
    ensures Inhabits(VObj(map["start_date" := VDate, "value" := S("2")]),
                     ExtractType(SchemaMap(RequiredAltShape(DateTime1(), WhenSchema()))))
  {
    DateTimeElements(VDate);
    WhenElements(S("2"));
    RequiredAltShapeSample(DateTime1(), WhenSchema());
  }

  /** The outer member `required: object(...).required()` is a required property. */
  lemma RequiredAltOuter(inner: map<string, Schema>)
    ensures "required" in ExtractType(SchemaMap(map["required" := Required(ObjectSchema(inner))])).required
  {
    ExtractMapPartition(map["required" := Required(ObjectSchema(inner))], "required");
  }

  // ---------------------------------------------------------------------------
  // Keys and patterns (index.spec.ts:72-81, 172-188)
  // ---------------------------------------------------------------------------

  /** `object().keys(map)` starts a fresh box: it extracts as the bare map and is not required. */
  lemma KeysOnEmptyObject(m: map<string, Schema>, x: Value)
    ensures !IsRequired(Keys(EmptyObjectSchema(), m))
    ensures Inhabits(x, ExtractType(Keys(EmptyObjectSchema(), m))) <==> Inhabits(x, ExtractType(SchemaMap(m)))
  {
  }

  /** `string().valid('pattern_key')`. */
  function PatternKey(): Schema
  {
    Valid(StringSchema(), [S("pattern_key")])
  }

  /** `required2` of `required_alt_augmented`: a required object with three `pattern` calls. */
  function Required2(): Schema
  {
    Pattern(Pattern(PatternRegex(Required(ObjectSchema(map["value" := NumberSchema()])), NumberSchema()),
                    StringSchema(), NumberSchema()),
            PatternKey(), NumberSchema())
  }

  /** The three `pattern` calls keep `R` and everything the object admitted before. */
  lemma PatternChainKeeps(s: Schema, key: Schema, x: Value)
    requires s.Decorated? && s.kind == ObjectKind && s.n.Box? && key.Decorated? && key.kind == StringKind
    requires Inhabits(x, ExtractType(s))
    ensures var r := Pattern(Pattern(PatternRegex(s, NumberSchema()), StringSchema(), NumberSchema()), key, NumberSchema());
      IsRequired(r) == IsRequired(s) && Inhabits(x, ExtractType(r))
  {
  }

  /** `required2` is a required property, and the test's `{}` is admitted. */
  lemma Required2Empty()
    ensures IsRequired(Required2())
    ensures Inhabits(VObj(map[]), ExtractType(Required2()))
  {
    var s := Required(ObjectSchema(map["value" := NumberSchema()]));
    ExtractMapAdmits(map["value" := NumberSchema()], VObj(map[]));
    PatternChainKeeps(s, PatternKey(), VObj(map[]));
  }

  // ---------------------------------------------------------------------------
  // Explicit type arguments (index.spec.ts:137-142)
  // ---------------------------------------------------------------------------

  /**
   * `func<typeof someFunction>()` holds the function's own type; the model
   * has one function value, so that type is `Function`, and the function is
   * admitted.
   */
  lemma FuncTypeArgument()
    ensures IsOptional(Constructor(FunctionKind, Func))
    ensures Inhabits(VFunc, ExtractType(Constructor(FunctionKind, Func)))
  {
  }

  /** `string<'a'>()` holds the literal type `'a'`, even once required. */
  lemma StringLiteralArgument(x: Value)
    ensures IsRequired(Required(Constructor(StringKind, Lit(LStr("a")))))
    ensures Inhabits(x, ExtractType(Required(Constructor(StringKind, Lit(LStr("a")))))) <==> x == S("a")
  {
  }

  // ---------------------------------------------------------------------------
  // Bare lists (index.spec.ts:190-198)
  // ---------------------------------------------------------------------------

  /** A bare two-element list holds what `extractOne` of either element holds. */
  lemma ListTwo(a: Schema, b: Schema, x: Value)
    ensures Inhabits(x, ExtractType(SchemaList([a, b]))) <==> Inhabits(x, ExtractOne(a)) || Inhabits(x, ExtractOne(b))
  {
    ExtractListAdmits([a, b]);
    ExistsTwo(s => Inhabits(x, ExtractOne(s)), a, b);
  }

  function StringArraySchema(): seq<Schema>
  {
    [Default(StringSchema(), S("test")), Items(ArraySchema(), SchemaList([StringSchema(), NumberSchema()]))]
  }

  /** A bare list is the union of its elements: here a string with a default ... */
  lemma StringArrayString()
    ensures Inhabits(S("string"), ExtractType(SchemaList(StringArraySchema())))
  {
    var d := Default(StringSchema(), S("test"));
    assert Inhabits(S("string"), ExtractOne(d));
    ListTwo(d, Items(ArraySchema(), SchemaList([StringSchema(), NumberSchema()])), S("string"));
  }

  /** An array of a string and a number is admitted by a list whose second element is `array().items([string(), number()])`. */
  lemma StringNumberPair(d: Schema, x: Value, y: Value)
    requires x.VLit? && x.lit.LStr? && y.VLit? && y.lit.LNum?
    ensures Inhabits(VArr([x, y]), ExtractType(SchemaList([d, Items(ArraySchema(), SchemaList([StringSchema(), NumberSchema()]))])))
  {
    ListTwo(StringSchema(), NumberSchema(), x);
    ListTwo(StringSchema(), NumberSchema(), y);
    var arr := Items(ArraySchema(), SchemaList([StringSchema(), NumberSchema()]));
    ArrayPair(x, y, ExtractType(arr).elem);
    ListTwo(d, arr, VArr([x, y]));
  }

  /** ... or an array of strings and numbers, the item list being a union too. */
  lemma StringArrayArray()
    ensures Inhabits(VArr([S("string"), N(2)]), ExtractType(SchemaList(StringArraySchema())))
  {
    StringNumberPair(Default(StringSchema(), S("test")), S("string"), N(2));
  }

  // ---------------------------------------------------------------------------
  // extendsGuard (index.spec.ts:200-205)
  // ---------------------------------------------------------------------------

  /** `extendsGuard<any, number>` is `number`. */
  lemma GuardAnyNumber()
    ensures Guard(Any, Num) == Num
  {
    assert Members(Num) == {Num};
    assert GuardMembers(Any, Num) == {Num};
  }

  /** `extendsGuard<string, number>` is `string`. */
  lemma GuardStringNumber()
    ensures Guard(Str, Num) == Str
  {
    assert !Subtype(Num, Str);
    assert Members(Num) == {Num};
    assert GuardMembers(Str, Num) == {Str};
  }
}
