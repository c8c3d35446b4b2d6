/**
 * Type descriptors shared by both generations of the extraction calculus.
 *
 * `Ty` is the static type a Joi schema is extracted to: TypeScript's primitive
 * types, literal types, unions (held as sets, so member order never matters),
 * arrays, object types split into required and optional properties, index
 * signatures and intersections. `Value` is a runtime value, and `Inhabits`
 * gives every type its meaning as the set of values it admits; the lemmas of
 * the other modules state what an extracted type admits through it.
 */
module Types {

  datatype Option<+T> = None | Some(value: T)

  /** A TypeScript literal: a string, number or boolean literal type. */
  datatype Literal = LStr(s: string) | LNum(n: int) | LBool(b: bool)

  /** A runtime value, as a test assigns it to an extracted type. */
  datatype Value =
    | VLit(lit: Literal)
    | VNull
    | VUndefined
    | VDate
    | VFunc
    | VArr(elems: seq<Value>)
    | VObj(fields: map<string, Value>)

  /** One member of `primitiveType` (index.ts:40, src/index.ts:22) used directly as a schema. */
  datatype Primitive =
    | PString | PNumber | PBoolean | PFunction | PDate | PUndefined | PNull
    | PLiteral(lit: Literal)

  /** The static type descriptor. */
  datatype Ty =
    | Any
    | Never
    | Undefined
    | Null
    | Str
    | Num
    | Bool
    | Date
    | Func
    | Lit(lit: Literal)
    | Union(members: set<Ty>)
    | ArrayOf(elem: Ty)
    | Obj(required: map<string, Ty>, optional: map<string, Ty>)
    | Index(key: Ty, value: Ty)
    | Inter(left: Ty, right: Ty)

  /** The descriptor of a primitive type. */
  function PrimitiveType(p: Primitive): Ty
  {
    match p
    case PString => Str
    case PNumber => Num
    case PBoolean => Bool
    case PFunction => Func
    case PDate => Date
    case PUndefined => Undefined
    case PNull => Null
    case PLiteral(l) => Lit(l)
  }

  /**
   * The values a type admits. An object type admits objects carrying every
   * required property and, for each optional property present, a matching
   * value or `undefined`; further properties are allowed, as in TypeScript's
   * structural typing. An index signature constrains every property whose
   * name its key type admits.
   */
  predicate Inhabits(v: Value, t: Ty)
    decreases t, 1
  {
    match t
    case Any => true
    case Never => false
    case Undefined => v == VUndefined
    case Null => v == VNull
    case Str => v.VLit? && v.lit.LStr?
    case Num => v.VLit? && v.lit.LNum?
    case Bool => v.VLit? && v.lit.LBool?
    case Date => v == VDate
    case Func => v == VFunc
    case Lit(l) => v == VLit(l)
    case Union(ms) => exists m | m in ms :: Inhabits(v, m)
    case ArrayOf(e) => v.VArr? && ElemsAdmit(v.elems, e)
    case Obj(req, opt) => v.VObj? && FieldsAdmit(v.fields, req, opt)
    case Index(kt, vt) => v.VObj? && IndexAdmits(v.fields, kt, vt)
    case Inter(a, b) => Inhabits(v, a) && Inhabits(v, b)
  }

  /** Every element of an array value is admitted by the element type. */
  predicate ElemsAdmit(xs: seq<Value>, e: Ty)
    decreases e, 2
  {
    forall i | 0 <= i < |xs| :: Inhabits(xs[i], e)
  }

  /** The properties of an object value meet an object type's required and optional members. */
  predicate FieldsAdmit(fs: map<string, Value>, req: map<string, Ty>, opt: map<string, Ty>)
    decreases Obj(req, opt), 0
  {
    && (forall k | k in req :: k in fs && Inhabits(fs[k], req[k]))
    && (forall k | k in opt && k in fs :: fs[k] == VUndefined || Inhabits(fs[k], opt[k]))
  }

  /** Every property whose name the key type admits has a value the value type admits. */
  predicate IndexAdmits(fs: map<string, Value>, kt: Ty, vt: Ty)
    decreases Index(kt, vt), 0
  {
    forall k | k in fs && Inhabits(VLit(LStr(k)), kt) :: Inhabits(fs[k], vt)
  }

  /** `t` admits exactly what `a` or `b` admits: it is `a | b` up to equivalence. */
  ghost predicate AdmitsEither(t: Ty, a: Ty, b: Ty)
  {
    forall x :: Inhabits(x, t) <==> Inhabits(x, a) || Inhabits(x, b)
  }

  // ---------------------------------------------------------------------------
  // Union combinator
  // ---------------------------------------------------------------------------

  /** The members a type contributes to a union: a union its members, `never` none. */
  function Members(t: Ty): (ms: set<Ty>)
    ensures forall v :: Inhabits(v, t) <==> exists m | m in ms :: Inhabits(v, m)
  {
    match t
    case Never => {}
    case Union(ms) => ms
    case _ => {t}
  }

  /** A set of union members: no member is itself a union or `never`. */
  predicate Flat(ms: set<Ty>)
  {
    forall m | m in ms :: !m.Union? && m != Never
  }

  /** A type in normal form: a union has at least two members and is flat. */
  predicate Normal(t: Ty)
  {
    t.Union? ==> |t.members| >= 2 && Flat(t.members)
  }

  lemma SingletonIs(ms: set<Ty>, m: Ty)
    requires |ms| == 1 && m in ms
    ensures ms == {m}
  {
    assert |ms - {m}| == 0;
  }

  /** The only member of a one-element set. */
  function Only(ms: set<Ty>): (r: Ty)
    requires |ms| == 1
    ensures ms == {r}
  {
    var m :| m in ms;
    SingletonIs(ms, m);
    m
  }

  /**
   * The union of a set of members: `never` when empty, the member itself when
   * there is one, the set otherwise. It admits exactly what some member admits,
   * and a flat set of members comes back unchanged from `Members`.
   */
  function MkUnion(ms: set<Ty>): (r: Ty)
    ensures forall v :: Inhabits(v, r) <==> Inhabits(v, Union(ms))
    ensures forall v :: Inhabits(v, r) <==> exists m | m in ms :: Inhabits(v, m)
    ensures Flat(ms) ==> Normal(r) && Members(r) == ms
  {
    if ms == {} then Never
    else if |ms| == 1 then Only(ms)
    else Union(ms)
  }

  /** `a | b`. */
  function Join(a: Ty, b: Ty): (r: Ty)
    ensures forall v :: Inhabits(v, r) <==> Inhabits(v, a) || Inhabits(v, b)
    ensures Normal(a) && Normal(b) ==> Normal(r)
  {
    NormalMembersFlat(a);
    NormalMembersFlat(b);
    MkUnion(Members(a) + Members(b))
  }

  lemma NormalMembersFlat(t: Ty)
    ensures Normal(t) ==> Flat(Members(t))
  {
  }

  /** The members of all the types of a list, gathered into one set. */
  function MembersOf(ts: seq<Ty>): set<Ty>
  {
    if ts == [] then {} else Members(ts[0]) + MembersOf(ts[1..])
  }

  lemma {:induction false} MembersOfAt(ts: seq<Ty>, m: Ty)
    ensures m in MembersOf(ts) <==> exists i | 0 <= i < |ts| :: m in Members(ts[i])
  {
    if ts != [] {
      MembersOfAt(ts[1..], m);
      if m in MembersOf(ts[1..]) {
        var i :| 0 <= i < |ts[1..]| && m in Members(ts[1..][i]);
        assert m in Members(ts[i + 1]);
      }
      if exists i | 0 <= i < |ts| :: m in Members(ts[i]) {
        var i :| 0 <= i < |ts| && m in Members(ts[i]);
        if i > 0 {
          assert m in Members(ts[1..][i - 1]);
        }
      }
    }
  }

  lemma {:induction false} MembersOfFlat(ts: seq<Ty>)
    ensures (forall i | 0 <= i < |ts| :: Normal(ts[i])) ==> Flat(MembersOf(ts))
  {
    forall m | m in MembersOf(ts) && forall i | 0 <= i < |ts| :: Normal(ts[i])
      ensures !m.Union? && m != Never
    {
      MembersOfAt(ts, m);
      var i :| 0 <= i < |ts| && m in Members(ts[i]);
      NormalMembersFlat(ts[i]);
    }
  }

  /**
   * The union of a list of types, as TypeScript forms `T[number]` of a tuple:
   * it admits exactly what some listed type admits; the empty list gives `never`.
   */
  function JoinAll(ts: seq<Ty>): (r: Ty)
    ensures forall v :: Inhabits(v, r) <==> exists i | 0 <= i < |ts| :: Inhabits(v, ts[i])
    ensures (forall i | 0 <= i < |ts| :: Normal(ts[i])) ==> Normal(r)
  {
    MembersOfAdmits(ts);
    MembersOfFlat(ts);
    MkUnion(MembersOf(ts))
  }

  lemma MembersOfAdmits(ts: seq<Ty>)
    ensures forall v :: Inhabits(v, Union(MembersOf(ts))) <==> exists i | 0 <= i < |ts| :: Inhabits(v, ts[i])
  {
    forall v
      ensures Inhabits(v, Union(MembersOf(ts))) <==> exists i | 0 <= i < |ts| :: Inhabits(v, ts[i])
    {
      if Inhabits(v, Union(MembersOf(ts))) {
        var m :| m in MembersOf(ts) && Inhabits(v, m);
        MemberAdmitsElement(ts, v, m);
      }
      if exists i | 0 <= i < |ts| :: Inhabits(v, ts[i]) {
        var i :| 0 <= i < |ts| && Inhabits(v, ts[i]);
        ElementAdmitsMember(ts, v, i);
      }
    }
  }

  lemma MemberAdmitsElement(ts: seq<Ty>, v: Value, m: Ty)
    requires m in MembersOf(ts) && Inhabits(v, m)
    ensures exists i | 0 <= i < |ts| :: Inhabits(v, ts[i])
  {
    MembersOfAt(ts, m);
    var i :| 0 <= i < |ts| && m in Members(ts[i]);
    assert Inhabits(v, ts[i]);
  }

  lemma ElementAdmitsMember(ts: seq<Ty>, v: Value, i: int)
    requires 0 <= i < |ts| && Inhabits(v, ts[i])
    ensures Inhabits(v, Union(MembersOf(ts)))
  {
    var m :| m in Members(ts[i]) && Inhabits(v, m);
    MembersOfAt(ts, m);
  }

  /**
   * The union of a list depends only on which types are listed: not on their
   * order, nor on repetitions.
   */
  lemma {:induction false} JoinAllSameElements(xs: seq<Ty>, ys: seq<Ty>)
    requires forall t :: t in xs <==> t in ys
    ensures JoinAll(xs) == JoinAll(ys)
  {
    forall m
      ensures m in MembersOf(xs) <==> m in MembersOf(ys)
    {
      MembersOfAt(xs, m);
      MembersOfAt(ys, m);
      if m in MembersOf(xs) {
        var i :| 0 <= i < |xs| && m in Members(xs[i]);
        assert xs[i] in ys;
        var j :| 0 <= j < |ys| && ys[j] == xs[i];
      }
      if m in MembersOf(ys) {
        var j :| 0 <= j < |ys| && m in Members(ys[j]);
        assert ys[j] in xs;
        var i :| 0 <= i < |xs| && xs[i] == ys[j];
      }
    }
    assert MembersOf(xs) == MembersOf(ys);
  }

  // ---------------------------------------------------------------------------
  // Types of value arguments
  // ---------------------------------------------------------------------------

  /** The widened type of a value: `2` is a `number`, `[5]` a `number[]`. */
  function Widen(v: Value): Ty
  {
    match v
    case VLit(LStr(_)) => Str
    case VLit(LNum(_)) => Num
    case VLit(LBool(_)) => Bool
    case VNull => Null
    case VUndefined => Undefined
    case VDate => Date
    case VFunc => Func
    case VArr(es) => ArrayOf(JoinAll(seq(|es|, i requires 0 <= i < |es| => Widen(es[i]))))
    case VObj(f) => Obj(map k | k in f :: Widen(f[k]), map[])
  }

  /** Every value inhabits its widened type. */
  lemma {:induction false} WidenAdmits(v: Value)
    ensures Inhabits(v, Widen(v))
  {
    match v
    case VArr(es) =>
      var ts := seq(|es|, i requires 0 <= i < |es| => Widen(es[i]));
      forall i | 0 <= i < |es|
        ensures Inhabits(es[i], JoinAll(ts))
      {
        WidenAdmits(es[i]);
        assert Inhabits(es[i], ts[i]);
      }
    case VObj(f) =>
      forall k | k in f
        ensures Inhabits(f[k], Widen(f[k]))
      {
        WidenAdmits(f[k]);
      }
    case _ =>
  }

  /** The union of the widened types of a list of values: what `T` of `f<T>(...values: T[])` becomes. */
  function WidenAll(vs: seq<Value>): (r: Ty)
    ensures forall i | 0 <= i < |vs| :: Inhabits(vs[i], r)
    ensures forall x :: Inhabits(x, r) <==> exists i | 0 <= i < |vs| :: Inhabits(x, Widen(vs[i]))
  {
    var ts := seq(|vs|, i requires 0 <= i < |vs| => Widen(vs[i]));
    forall i | 0 <= i < |vs|
      ensures Inhabits(vs[i], ts[i])
    {
      WidenAdmits(vs[i]);
    }
    JoinAll(ts)
  }

  /** A value that is neither an array nor an object. */
  predicate Scalar(v: Value)
  {
    !v.VArr? && !v.VObj?
  }

  /**
   * The type TypeScript infers for a value argument whose type parameter keeps
   * literals: a literal type for a string, number or boolean, the widened type
   * otherwise.
   */
  function LiteralType(v: Value): (r: Ty)
    ensures Inhabits(v, r)
    ensures Scalar(v) ==> forall x :: Inhabits(x, r) <==> x == v
  {
    WidenAdmits(v);
    if v.VLit? then Lit(v.lit) else Widen(v)
  }

  /** `typeof values[number]` for a list of value arguments. */
  function LiteralsType(vs: seq<Value>): (r: Ty)
    ensures forall i | 0 <= i < |vs| :: Inhabits(vs[i], r)
    ensures (forall i | 0 <= i < |vs| :: Scalar(vs[i])) ==> forall x :: Inhabits(x, r) <==> x in vs
  {
    var ts := seq(|vs|, i requires 0 <= i < |vs| => LiteralType(vs[i]));
    assert forall i | 0 <= i < |vs| :: ts[i] == LiteralType(vs[i]) && Inhabits(vs[i], ts[i]);
    JoinAll(ts)
  }

  // ---------------------------------------------------------------------------
  // Structural subtyping and the extends-guard
  // ---------------------------------------------------------------------------

  /**
   * A structural approximation of TypeScript's `S extends T`: sound (see
   * `SubtypeSound`) though not complete.
   */
  predicate Subtype(s: Ty, t: Ty)
    decreases s, t
  {
    if s == t || t == Any || s == Never then true
    else if s.Union? then forall m | m in s.members :: Subtype(m, t)
    else if s.Inter? then Subtype(s.left, t) || Subtype(s.right, t)
    else if t.Union? then exists m | m in t.members :: Subtype(s, m)
    else if t.Inter? then Subtype(s, t.left) && Subtype(s, t.right)
    else if t == Str then s.Lit? && s.lit.LStr?
    else if t == Num then s.Lit? && s.lit.LNum?
    else if t == Bool then s.Lit? && s.lit.LBool?
    else if t.ArrayOf? then s.ArrayOf? && Subtype(s.elem, t.elem)
    else if t.Obj? then s.Obj? && ObjectSubtype(s, t)
    else if t.Index? then s.Index? && s.key == t.key && Subtype(s.value, t.value)
    else false
  }

  /**
   * Object width and depth subtyping: every required property of `t` is
   * required in `s` with a subtype, every optional property of `t` is declared
   * in `s` with a subtype.
   */
  predicate ObjectSubtype(s: Ty, t: Ty)
    requires s.Obj? && t.Obj?
    decreases s, t, 0
  {
    && (forall k | k in t.required :: k in s.required && Subtype(s.required[k], t.required[k]))
    && (forall k | k in t.optional ::
          || (k in s.required && Subtype(s.required[k], t.optional[k]))
          || (k in s.optional && Subtype(s.optional[k], t.optional[k])))
  }

  /** A subtype admits nothing its supertype does not. */
  lemma SubtypeAdmits(s: Ty, t: Ty)
    requires Subtype(s, t)
    ensures forall v | Inhabits(v, s) :: Inhabits(v, t)
  {
    forall v | Inhabits(v, s)
      ensures Inhabits(v, t)
    {
      SubtypeSound(s, t, v);
    }
  }

  /** Whatever a subtype admits, its supertype admits. */
  lemma {:induction false} SubtypeSound(s: Ty, t: Ty, v: Value)
    requires Subtype(s, t) && Inhabits(v, s)
    ensures Inhabits(v, t)
    decreases s, t, 1
  {
    if s == t || t == Any || s == Never {
    } else if s.Union? {
      var m :| m in s.members && Inhabits(v, m);
      SubtypeSound(m, t, v);
    } else if s.Inter? {
      if Subtype(s.left, t) { SubtypeSound(s.left, t, v); } else { SubtypeSound(s.right, t, v); }
    } else if t.Union? {
      var m :| m in t.members && Subtype(s, m);
      SubtypeSound(s, m, v);
    } else if t.Inter? {
      SubtypeSound(s, t.left, v);
      SubtypeSound(s, t.right, v);
    } else if t == Str || t == Num || t == Bool {
    } else if t.ArrayOf? {
      forall i | 0 <= i < |v.elems|
        ensures Inhabits(v.elems[i], t.elem)
      {
        SubtypeSound(s.elem, t.elem, v.elems[i]);
      }
    } else if t.Obj? {
      ObjectSubtypeSound(s, t, v);
    } else if t.Index? {
      forall k | k in v.fields && Inhabits(VLit(LStr(k)), t.key)
        ensures Inhabits(v.fields[k], t.value)
      {
        SubtypeSound(s.value, t.value, v.fields[k]);
      }
    }
  }

  lemma {:induction false} ObjectSubtypeSound(s: Ty, t: Ty, v: Value)
    requires s.Obj? && t.Obj? && ObjectSubtype(s, t) && Inhabits(v, s)
    ensures Inhabits(v, t)
    decreases s, t, 0
  {
    forall k | k in t.required
      ensures k in v.fields && Inhabits(v.fields[k], t.required[k])
    {
      SubtypeSound(s.required[k], t.required[k], v.fields[k]);
    }
    forall k | k in t.optional && k in v.fields
      ensures v.fields[k] == VUndefined || Inhabits(v.fields[k], t.optional[k])
    {
      if k in s.required && Subtype(s.required[k], t.optional[k]) {
        SubtypeSound(s.required[k], t.optional[k], v.fields[k]);
      } else if v.fields[k] != VUndefined {
        SubtypeSound(s.optional[k], t.optional[k], v.fields[k]);
      }
    }
  }

  /** `S extends T ? S : T` for one union member `S`. */
  function GuardMember(t: Ty, s: Ty): (r: Ty)
    ensures forall v | Inhabits(v, r) :: Inhabits(v, t)
    ensures Subtype(s, t) ==> forall v :: Inhabits(v, r) <==> Inhabits(v, s)
    ensures !Subtype(s, t) ==> r == t
  {
    if Subtype(s, t) then SubtypeAdmits(s, t); s else t
  }

  /**
   * `extendsGuard<T, S> = S extends T ? S : T` (index.ts:47, src/index.ts:27).
   * The conditional distributes over the members of the union `S`.
   */
  function Guard(t: Ty, s: Ty): (r: Ty)
    ensures forall v :: Inhabits(v, r) ==> Inhabits(v, t)
    ensures Members(s) != {} && (forall m | m in Members(s) :: !Subtype(m, t)) ==> r == t
    ensures forall m, v | m in Members(s) && Subtype(m, t) && Inhabits(v, m) :: Inhabits(v, r)
    ensures (exists m | m in Members(s) :: !Subtype(m, t)) ==> forall v | Inhabits(v, t) :: Inhabits(v, r)
  {
    GuardMembersWithin(t, s);
    GuardMembersFallBack(t, s);
    MkUnion(GuardMembers(t, s))
  }

  /** The results of the guard for each member of `S`. */
  function GuardMembers(t: Ty, s: Ty): set<Ty>
  {
    set m | m in Members(s) :: GuardMember(t, m)
  }

  lemma GuardMembersWithin(t: Ty, s: Ty)
    ensures forall v :: (exists g | g in GuardMembers(t, s) :: Inhabits(v, g)) ==> Inhabits(v, t)
  {
    forall v, g | g in GuardMembers(t, s) && Inhabits(v, g)
      ensures Inhabits(v, t)
    {
      var m :| m in Members(s) && g == GuardMember(t, m);
      if Subtype(m, t) {
        SubtypeSound(m, t, v);
      }
    }
  }

  lemma GuardMembersFallBack(t: Ty, s: Ty)
    ensures Members(s) != {} && (forall m | m in Members(s) :: !Subtype(m, t)) ==> GuardMembers(t, s) == {t}
  {
    if Members(s) != {} && forall m | m in Members(s) :: !Subtype(m, t) {
      var m0 :| m0 in Members(s);
      assert GuardMember(t, m0) in GuardMembers(t, s);
    }
  }

  /** When every member of `S` extends `T`, the guard admits exactly what `S` admits. */
  lemma GuardKeeps(t: Ty, s: Ty, v: Value)
    requires forall m | m in Members(s) :: Subtype(m, t)
    ensures Inhabits(v, Guard(t, s)) <==> Inhabits(v, s)
  {
    assert GuardMembers(t, s) == Members(s);
  }
}
