# joi-extract-type: the extraction calculus, in Dafny

joi-extract-type declares TypeScript types for Joi schema builders. The
compiler uses them to work out, from a schema such as
`Joi.object({ id: Joi.string().required() })`, the static type of the values
that schema accepts. Nothing runs at run time. The whole library is a
type-level calculus of conditional and mapped types over finite schema
trees. This project states that calculus as Dafny datatypes and functions
and proves what the extracted types admit.

- `types.dfy` (module `Types`) holds the type descriptor `Ty`, runtime
  values `Value` and `Inhabits(v, t)`, which gives each type its meaning as
  the set of values it admits. It also holds the union combinator
  (`Join`, `JoinAll`), the types inferred for value arguments (`Widen`,
  `LiteralType`), a structural subtype check with a soundness proof, and
  `extendsGuard` (`Guard`), which both generations share.
- `box_model.dfy` (module `BoxModel`) is generation 1 (`index.ts`). Every
  decorated schema carries `Box<T, R>`: `T` is the held type and `R` says
  whether the schema is required inside an object. Modifiers update the box
  through `BoxType`, `BoxUnion` and `BoxReq`. `ExtractType` dispatches over
  primitives, decorated schemas, bare key maps (objects) and bare lists
  (alternatives). `ExtractMap` splits object members into required and
  optional properties.
- `extension_model.dfy` (module `ExtensionModel`) is generation 2
  (`src/index.ts`). Every schema is an `AnySchemaExtension<V, O>`, and
  extraction is `pullType<V, O>`: `V`, or `V | undefined` when `O` holds.
- `box_examples.dfy` and `extension_examples.dfy` restate the repository's
  type tests (`index.spec.ts`, `src/spec/`). They build each test's schema
  with the model's constructors. They prove that the extracted type admits
  the values the test assigns. They also prove it rejects the values the
  test leaves commented out as type errors.

Type equality in the tests (`CommonPartType`) is read as "admits the same
values". Unions are sets of members, so member order never matters.

### Where the declarations decide

Several presence and value rules can be read more than one way. The model
follows the declarations as written.

- Generation 1 `default(v)` returns `Box<N['T'] | T, true>` (index.ts:87).
  So a member with a default becomes a required property, not an optional
  one.
- Generation 2 `default(v)` returns `AnySchemaExtension<ValueType>`
  (src/index.ts:73). Its `O` defaults to `true`, so the schema is optional
  again even after `required()`.
- `valid(...)` replaces the held type with the union of the given values'
  types. It does not add them to the earlier type. This holds in both
  generations.
- Generation 2 `allow<T>(...)` has an unconstrained `T`, so TypeScript widens
  its arguments. `allow(null)` adds `null`, and `allow(0)` adds `number`
  rather than `0`.
- Generation 2 `valid<T extends V>(...)` keeps literal types only when `V`
  has a primitive member. On `number()` it gives `2 | 3 | 4`. On `any()`,
  `date()` or `array()` the values' types are widened (`HasPrimitive`).

## Model

| member | source | states |
|---|---|---|
| Types.Members | index.ts:22 | the members a type contributes to a union admit exactly what the type admits |
| Types.MkUnion | index.ts:22 | the union of a member set admits exactly what some member admits, and a flat set stays in normal form |
| Types.Join | index.ts:22 | `a \| b` admits exactly what `a` or `b` admits, and stays in normal form |
| Types.JoinAll | index.ts:343 | `typeof alts[number]` admits exactly what some listed type admits, and the empty list gives `never` |
| Types.MembersOfAdmits | index.ts:343 | the gathered members of a list admit exactly what some element of the list admits |
| Types.MembersOfAt | index.ts:343 | a type is a gathered member exactly when it is a member of some listed type |
| Types.JoinAllSameElements | src/index.ts:119 | a tuple's union depends only on which types are listed, not on their order or repetitions |
| Types.Widen | index.ts:202-205 | the type TypeScript infers for a value in a widening position: a literal's base type, `null`, `undefined`, `Date`, `Function`, arrays and objects element by element |
| Types.WidenAdmits | index.ts:202-205 | every value inhabits its widened type (the element type of an array literal) |
| Types.WidenAll | src/index.ts:66-68 | the join of the arguments' widened types admits exactly what they admit; it is the inferred `T` of an unconstrained `allow<T>` when the arguments share one base type, give or take `null` and `undefined` |
| Types.LiteralType | index.ts:91 | a literal argument's inferred type admits exactly that value |
| Types.LiteralsType | index.ts:91 | `typeof values[number]` admits every argument, and admits exactly the arguments when they are scalars |
| Types.SubtypeSound | index.ts:47 | whatever the structural `S extends T` check accepts, every value of `S` is a value of `T` |
| Types.ObjectSubtypeSound | index.ts:47 | object width and depth subtyping is sound for the object value semantics |
| Types.Subtype | index.ts:47 | the structural test standing for `S extends T`: equal types, `any` above and `never` below everything, unions member by member, literals under their base type, arrays by element, objects by width and depth, index signatures by value |
| Types.SubtypeAdmits | index.ts:47 | a subtype admits nothing its supertype does not |
| Types.GuardMember | index.ts:47 | `S extends T ? S : T` for one member: never more than `T`, exactly `S` when `S` extends `T`, `T` otherwise |
| Types.Guard | index.ts:47 | `extendsGuard<T, S>` never admits more than `T`; it keeps every value of each member of `S` that extends `T`; it admits all of `T` as soon as one member does not extend `T`, and is `T` itself when none does |
| Types.GuardKeeps | src/index.ts:27 | when every member of `S` extends `T`, `extendsGuard<T, S>` admits exactly what `S` admits |
| Types.GuardMembersFallBack | index.ts:47 | distributing the guard over members that all fail gives the single result `T` |
| BoxModel.BoxType | index.ts:21 | `BoxType` replaces the held type of a box and keeps `R`, and leaves a non-box alone |
| BoxModel.BoxUnion | index.ts:22 | `BoxUnion` keeps `R`, holds `oT \| nT`, and leaves a non-box alone |
| BoxModel.BoxReq | index.ts:24 | `BoxReq` replaces `R` of a box and keeps the held type, and leaves a non-box alone |
| BoxModel.BoxUpdatesIndependent | index.ts:21-24 | `BoxType` and `BoxReq` touch one component each, commute, and a second update of a component overrides the first |
| BoxModel.MaybeExtractBox | index.ts:377 | a box gives its held type, and the `null` carrier of `object()` gives `null` |
| BoxModel.ExtractOne | index.ts:380-397 | a primitive type passes through, a decorated schema gives its held type (an array schema an array of it) whatever `R` is, and anything else admits every value |
| BoxModel.ExtractType | index.ts:400-431 | a bare map extracts to an object type, and anything but a bare list or map goes through `extractOne` |
| BoxModel.ExtractIgnoresRequired | index.ts:377-397 | `R` never reaches the extracted type; a decorated schema admits `undefined` iff it is not an array and its held type admits it |
| BoxModel.IsRequired | index.ts:362-368 | `MarkRequired<T, true>` keeps a member: a decorated schema boxed with `R = true` |
| BoxModel.IsVoid | index.ts:356-360 | `FilterVoid` drops a member whose type is `null` or `undefined` |
| BoxModel.IsOptional | index.ts:362-369 | `MarkRequired<T, false>` keeps every other member that `FilterVoid` does not drop |
| BoxModel.PresenceClasses | index.ts:356-369 | every member lands in exactly one of required, optional and dropped |
| BoxModel.ExtractMap | index.ts:371-375 | a key map extracts to an object type |
| BoxModel.ExtractMapPartition | index.ts:356-375 | a member is a required property iff it is boxed with `R = true`, and optional iff not and not `null`/`undefined`; never both; each property has its member's type |
| BoxModel.ExtractMapAdmits | index.ts:371-375 | an extracted key map admits exactly the objects holding every required property and, when present, each optional one or `undefined` |
| BoxModel.Constructor | index.ts:104 | `string<T>()`, `number<T>()`, `boolean<T>()`, `date<T>()`, `func<T>()` hold the type argument `T`, which extends the kind's base type, so they admit only base-type values, and are not required |
| BoxModel.StringSchema | index.ts:104 | `string()` with no type argument holds its constraint: it extracts to `string` and is not required |
| BoxModel.NumberSchema | index.ts:127 | `number()` extracts to `number` and is not required |
| BoxModel.BooleanSchema | index.ts:153 | `boolean()` extracts to `boolean` and is not required |
| BoxModel.DateSchema | index.ts:176 | `date()` extracts to `Date` and is not required |
| BoxModel.FuncSchema | index.ts:194 | `func()` extracts to `Function` and is not required |
| BoxModel.ArraySchema | index.ts:225 | `array()` holds `never`, so it admits only the empty array, and is not required |
| BoxModel.ArrayOfNeverIsEmpty | index.ts:225 | the only array of `never` is the empty one |
| BoxModel.ObjectSchema | index.ts:290-292 | `object(map)` is not required and extracts exactly as the bare map does |
| BoxModel.EmptyObjectSchema | index.ts:230 | `object()` without a map keeps `N = null` and extracts to `null` |
| BoxModel.Alternatives | index.ts:341-353 | `alternatives`/`alt` admit exactly what some branch admits and are not required |
| BoxModel.AlternativesOrderFree | index.ts:341-346 | branch lists naming the same schemas, in any order and with any repetition, give the same schema |
| BoxModel.Required | index.ts:96 | `required()` keeps the kind and the extracted type, and makes a boxed schema required |
| BoxModel.Exist | index.ts:98 | `exist()` has the same effect as `required()` |
| BoxModel.Optional | index.ts:100 | `optional()` keeps the kind and the extracted type, and makes the schema optional |
| BoxModel.ApplyPresence | index.ts:96-101 | a chain of presence calls keeps the kind and whether the schema is boxed |
| BoxModel.PresenceLastWins | index.ts:24 | after any presence chain the extracted type is unchanged, and the schema is required iff the last call is `required()` or `exist()` |
| BoxModel.Valid | index.ts:91-92 | `valid(vs)` keeps `R`, admits exactly the given values, and with no values gives the kind's base type |
| BoxModel.KindValuesScalar | index.ts:86 | values of a scalar kind's base type are scalars |
| BoxModel.ValidReplaces | index.ts:114-115 | a second `valid` replaces the first: `valid(a).valid(b)` is `valid(b)` |
| BoxModel.Default | index.ts:87 | `default(v)` makes the schema required, keeps its values and adds exactly `v` |
| BoxModel.DefaultArray | index.ts:202-205 | array `default(vs)` makes the schema required, adds the elements' widened types to the element type, admits the default, and leaves an unboxed schema alone |
| BoxModel.Items | index.ts:209-215 | `items(t)` keeps `R` and adds exactly what `t` admits to the element type, starting from the earlier one |
| BoxModel.DefaultObject | index.ts:231-234 | object `default(map)` makes a boxed schema required and adds the map's type as an alternative, and leaves `object()` without a map alone |
| BoxModel.Keys | index.ts:238-244 | `keys(map)` keeps `R` and admits exactly what both the earlier type and the map admit, or just the map on `object()` |
| BoxModel.Append | index.ts:264-272 | `append(map)` acts as `keys(map)`, and `append(null \| undefined)` returns the schema unchanged |
| BoxModel.LiteralKeys | index.ts:251 | the key type names literal keys iff every member is a string literal, and then exactly those keys |
| BoxModel.PatternMap | index.ts:251 | for a union of literal keys, each key is a required property iff the value schema is required, optional iff it is optional, and has the value schema's type |
| BoxModel.PatternKeysPartition | index.ts:251 | a key map sending every key to one value schema is partitioned by that schema alone |
| BoxModel.LiteralKeysSingle | index.ts:251 | a single string literal names exactly its own key |
| BoxModel.PatternMapLiteral | index.ts:251 | one literal key gives one property, required, optional or dropped as the value schema is |
| BoxModel.PatternMapString | index.ts:260 | the key type `string` gives an index signature that every field must meet, where an optional value schema also lets fields be `undefined` |
| BoxModel.StringIndexAdmits | index.ts:260 | an index signature over `string` constrains every field |
| BoxModel.Pattern | index.ts:246-253 | `pattern(key, schema)` keeps `R` and adds the pattern map for `extractType` of the key as an alternative |
| BoxModel.PatternRegex | index.ts:255-262 | `pattern(regex, schema)` keeps `R` and adds the `string`-keyed pattern map as an alternative |
| BoxModel.Try | index.ts:298-304 | `try(s1..sn)` keeps `R` and adds exactly what `extractOne` of some branch admits |
| BoxModel.ExtractListAdmits | index.ts:409-413 | a bare list admits exactly what `extractOne` of some element admits |
| BoxModel.When | index.ts:324-338 | `when(ref, { then, otherwise })` keeps `R` and adds both branches, whatever `ref` is |
| BoxExamples.PrimitiveSchemas | index.spec.ts:7-25 | the primitive schemas extract to `any`, `boolean`, `string`, `Date` and `number` and admit the test's values |
| BoxExamples.UserShapeRequired | index.spec.ts:27-36 | in the `userAsObject` shape, `full_name` and `has_credentials` are exactly the required properties |
| BoxExamples.UserShapeOptional | index.spec.ts:27-36 | the other four members are exactly the optional properties |
| BoxExamples.UserRequiredMembers | index.spec.ts:37-39 | `object(userAsObject)` extracts as the bare map, with required properties `full_name` and `has_credentials` |
| BoxExamples.UserOptionalMembers | index.spec.ts:27-39 | the test's map has optional properties `short_desc`, `is_enabled`, `created_at` and `priority` |
| BoxExamples.UserShapeSample | index.spec.ts:40-46 | the test's value, without `short_desc`, is admitted by any schema of that shape whose members hold its values |
| BoxExamples.UserSample | index.spec.ts:40-47 | the test's value is admitted by the extracted map |
| BoxExamples.CredentialsTrue | index.spec.ts:31-33 | `boolean().valid(true).required()` is required and holds `true` |
| BoxExamples.ItemsOnce | index.spec.ts:49-50 | `array().items(a)` holds exactly the elements `a` admits, since `array()` starts from `never` |
| BoxExamples.ItemsAgain | index.ts:209-213 | `items(b)` on a boxed array holds the earlier elements and those of `b` |
| BoxExamples.ItemsTwice | index.spec.ts:49-51 | `array().items(a).items(b)` holds the elements of either item |
| BoxExamples.ValidStringsOrNumbers | index.spec.ts:49-52 | `array().items(string().valid(vs)).items(number())` holds exactly the given strings and any number |
| BoxExamples.RolesElements | index.spec.ts:49-51 | the roles element type admits exactly `'admin'`, `'member'`, `'guest'` and any number |
| BoxExamples.RolesSample | index.spec.ts:53 | `['admin', 2]` is admitted |
| BoxExamples.RolesRejects | index.spec.ts:50 | a role outside the `valid` list is rejected |
| BoxExamples.NumberDefault | index.spec.ts:105 | `number().default(2)` is required and holds any number |
| BoxExamples.ArrayDefault | index.spec.ts:109 | `array().default([5])` is required and admits `[1, 2]` |
| BoxExamples.ObjectDefault | index.spec.ts:110 | `object({ number }).default({ string })` is required and admits `{ number: 5 }` |
| BoxExamples.EmptyAlternatives | index.ts:343 | `alt()` with no branches admits nothing (`never`) |
| BoxExamples.TryTwo | index.spec.ts:144 | `alt().try(a, b)` admits exactly what either branch admits |
| BoxExamples.NumberStringElements | index.spec.ts:144-147 | `alt().try(number().valid(1, 2, 3), string())` admits exactly 1, 2, 3 and any string |
| BoxExamples.NumberStringNumber | index.spec.ts:146 | 2 is admitted |
| BoxExamples.NumberStringString | index.spec.ts:147 | `'2'` is admitted |
| BoxExamples.NumberStringRejects | index.spec.ts:144 | 5 is rejected |
| BoxExamples.AlternativesThree | index.ts:341-343 | three alternatives admit exactly what one of them admits |
| BoxExamples.DateTimeElements | index.spec.ts:149-153 | `alternatives([date(), number(), string()])` admits exactly dates, numbers and strings |
| BoxExamples.WhenEither | index.spec.ts:155 | `alt().when(ref, { then: a, otherwise: b })` admits exactly what either branch admits |
| BoxExamples.WhenElements | index.spec.ts:155-158 | the test's `when` admits exactly strings and numbers |
| BoxExamples.RequiredAltInnerSample | index.spec.ts:160-170 | the inner object admits `{ start_date: new Date(), value: '2' }` without `end_date` |
| BoxExamples.RequiredAltOuter | index.spec.ts:161-165 | `required: object(...).required()` is a required property |
| BoxExamples.KeysOnEmptyObject | index.spec.ts:72 | `object().keys(map)` is not required and extracts exactly as the map |
| BoxExamples.PatternChainKeeps | index.spec.ts:173-179 | the three `pattern` calls keep `R` and every value the object admitted before |
| BoxExamples.Required2Empty | index.spec.ts:173-187 | `required2`, a required object with three `pattern` calls, is required and admits `{}` |
| BoxExamples.ListTwo | index.spec.ts:190-196 | a bare two-element list admits exactly what `extractOne` of either element admits |
| BoxExamples.StringArrayString | index.spec.ts:197 | the bare list admits `'string'` |
| BoxExamples.StringNumberPair | index.spec.ts:190-195 | a string and a number in a two-element array are admitted by the bare list |
| BoxExamples.StringArrayArray | index.spec.ts:198 | the bare list admits `['string', 2]` |
| BoxExamples.FuncTypeArgument | index.spec.ts:137-142 | `func<typeof someFunction>()` is not required and admits the function |
| BoxExamples.StringLiteralArgument | index.ts:104 | `string<'a'>().required()` is required and admits exactly `'a'` |
| BoxExamples.GuardAnyNumber | index.spec.ts:201-202 | `extendsGuard<any, number>` is `number` |
| BoxExamples.GuardStringNumber | index.spec.ts:204-205 | `extendsGuard<string, number>` is `string` |
| ExtensionModel.PullType | src/index.ts:323 | `pullType<V, O>` admits exactly what `V` admits, plus `undefined` when `O` holds |
| ExtensionModel.ExtractType | src/index.ts:336-381 | an extended schema extracts to `pullType<V, O>`, a primitive type to itself, anything else to `any` |
| ExtensionModel.UndefinedAdmitted | src/index.ts:323 | an extended schema admits `undefined` iff it is optional or `V` admits it |
| ExtensionModel.AnySchema | src/index.ts:91-93 | `any()` is optional and admits everything |
| ExtensionModel.StringSchema | src/index.ts:95-97 | `string()` is optional and admits exactly strings and `undefined` |
| ExtensionModel.NumberSchema | src/index.ts:99-101 | `number()` is optional and admits exactly numbers and `undefined` |
| ExtensionModel.BooleanSchema | src/index.ts:103-105 | `boolean()` is optional and admits exactly booleans and `undefined` |
| ExtensionModel.DateSchema | src/index.ts:107-109 | `date()` is optional and admits exactly dates and `undefined` |
| ExtensionModel.FuncSchema | src/index.ts:111-113 | `func()` is optional and admits exactly functions and `undefined` |
| ExtensionModel.ArraySchema | src/index.ts:125-127 | `array()` is optional and admits exactly arrays and `undefined` |
| ExtensionModel.Required | src/index.ts:77 | `required()` keeps `V`, clears `O`, and the schema then admits exactly `V` |
| ExtensionModel.Exist | src/index.ts:75 | `exist()` has the same effect as `required()` |
| ExtensionModel.Optional | src/index.ts:76 | `optional()` keeps `V`, sets `O`, and the schema admits `V` and `undefined` |
| ExtensionModel.ApplyPresence | src/index.ts:74-77 | a chain of presence calls keeps `V` |
| ExtensionModel.PresenceLastWins | src/index.ts:74-77 | after any presence chain `V` is unchanged, and the schema is optional iff the last call is `optional()` |
| ExtensionModel.HasPrimitive | src/index.ts:79-84 | whether `V` has a string, number, boolean, `null`, `undefined` or literal member, the case in which TypeScript keeps the literal types of `valid`'s arguments |
| ExtensionModel.ValidType | src/index.ts:79-84 | the inferred `T` admits every value: exactly the values under a primitive constraint, their widened types otherwise |
| ExtensionModel.Valid | src/index.ts:79-84 | `valid(vs)` keeps `O` and replaces `V` with a type admitting every value: exactly the values under a primitive `V`, their widened types otherwise |
| ExtensionModel.LiteralsHavePrimitive | src/index.ts:79-81 | literal value types are primitive, so a second `valid` keeps literals too |
| ExtensionModel.LiteralAdmittedPrimitive | src/index.ts:79-81 | a type admitting a string, number, boolean, `null` or `undefined` has a primitive member, or admits everything |
| ExtensionModel.ValidLiteralsPrimitive | src/index.ts:79-84 | `valid` with literals on a primitive-typed schema leaves a primitive-typed schema admitting exactly them |
| ExtensionModel.ValidReplaces | src/index.ts:79-84 | a second `valid(b)` leaves exactly `b`, and the literals of the first call not in `b` are gone |
| ExtensionModel.Allow | src/index.ts:66-71 | `allow(vs)` keeps `O` and adds the values' widened types to `V`; with no values `V` admits anything |
| ExtensionModel.AllowAccumulates | src/index.ts:66-71 | repeated `allow` calls accumulate, in either order |
| ExtensionModel.Default | src/index.ts:73 | `default(v)` keeps `V` and makes the schema optional again |
| ExtensionModel.DefaultMakesOptional | src/index.ts:73-77 | after any presence chain, `default` leaves an optional schema admitting `V` and `undefined` |
| ExtensionModel.ItemType | src/index.ts:120-123 | an extended item contributes exactly its `V`, without `undefined` added; the `never` branch for anything else is kept as written |
| ExtensionModel.ItemsElement | src/index.ts:119-123 | the element type admits exactly what some item's `V` admits; with no items it admits anything |
| ExtensionModel.Items | src/index.ts:128-138 | `items(...)` keeps `O`, rebuilds the element type from the items alone, and adds no `undefined` when no item's `V` has it |
| ExtensionModel.ItemsReplace | src/index.ts:128-132 | a later `items` call discards the element type of an earlier one |
| ExtensionModel.ItemsOrderFree | src/index.ts:119 | item order and repetition do not change the result |
| ExtensionModel.ItemsAdmits | src/index.ts:119-138 | an array schema with items admits `undefined` iff optional, and otherwise exactly the arrays whose every element is some item's value |
| ExtensionExamples.ValidLiterals | src/index.ts:79-84 | `valid` with literals on a primitive-typed schema admits exactly them, plus `undefined` when optional |
| ExtensionExamples.ItemsPair | src/index.ts:119-138 | a two-item `items` call's element type is `a \| b` of the items' `V` |
| ExtensionExamples.NumberTest | src/spec/primitives/number.ts:9-16 | `number()` admits 2 and `undefined`, not `null` |
| ExtensionExamples.BooleanTest | src/spec/primitives/boolean.ts:9-16 | `boolean()` admits `true` and `undefined`, not `null` |
| ExtensionExamples.DateTest | src/spec/primitives/date.ts:9-16 | `date()` admits a date and `undefined`, not `null` |
| ExtensionExamples.FunctionTest | src/spec/types/function.ts:9-16 | `func()` admits a function and `undefined`, not `null` |
| ExtensionExamples.StringTest | src/spec/types/string.ts:9-16 | `string()` admits a string and `undefined`, not `null` |
| ExtensionExamples.AnyTest | src/spec/types/any.ts:9-16 | `any()` admits 2, `'string'` and `undefined` |
| ExtensionExamples.RequiredTest | src/spec/any/required.ts:7-14 | `number().required()` admits 2 and rejects `undefined` |
| ExtensionExamples.OptionalTest | src/spec/number/optional.ts:9-15 | `number().required().optional()` admits 2 and `undefined` |
| ExtensionExamples.DefaultTest | src/spec/any/default.ts:9-15 | `number().required().default(2)` admits any number and `undefined` |
| ExtensionExamples.AllowTest | src/spec/any/allow.ts:9-16 | `number().allow(null)` admits numbers, `undefined` and `null` |
| ExtensionExamples.ValidTest | src/spec/any/valid.ts:7-15 | `number().valid(2, 3, 4)` admits exactly 2, 3, 4 and `undefined` |
| ExtensionExamples.ValidRejects | src/spec/any/valid.ts:17 | 5 is rejected |
| ExtensionExamples.ArrayTest | src/spec/types/array.ts:9-17 | `array()` admits `[]`, `[1, '2', null]` and `undefined`, not `null` |
| ExtensionExamples.NumberOrStringElements | src/spec/types/array2.ts:9-10 | the element type of `array().items(number().required(), string().required())` is exactly numbers and strings |
| ExtensionExamples.ArrayItemsTest | src/spec/types/array2.ts:14-19 | that schema admits `[]`, `[1, '2']` and `undefined`, and rejects a date element and `null` |
| ExtensionExamples.InnerElements | src/spec/types/array3.ts:8 | the inner array is required and its elements are exactly numbers and strings, with no `undefined` |
| ExtensionExamples.NestedHasShape | src/spec/types/array3.ts:7-13 | the nested schema is `((number \| string)[] \| string)[] \| undefined` |
| ExtensionExamples.NestedArrayTest | src/spec/types/array3.ts:18-21 | it admits `[]`, `['2']`, `['2', ['test', 2]]` and `undefined` |
| ExtensionExamples.NestedArrayRejects | src/spec/types/array3.ts:23-26 | it rejects `undefined` or a date inside the inner array, and `null` |

## Left out

- Runtime validation is left out: `Joi.validate`, `ValidationResult` and the callbacks (index.ts:52-71, test.ts, src/spec/test.ts). These are the external Joi library's behaviour. `extendsGuard`, which their signatures use, is modelled.
- Regular expressions and date parsing are left out. `string().regex(...)` (index.spec.ts:55-59) only yields `string`, and the matching happens in Joi at run time.
- The commented-out generation 2 code is left out: object and alternatives schemas, `extractMap`, and the bare-array shorthand (src/index.ts:145-267, 285-322, 324-333, 359-370). It is not live code, so src/spec/types/object.ts and object.pattern.ts have no declarations to check against.
- TypeScript checker behaviour beyond the calculus is left out: overload order, the `this`-returning fallback overloads, distribution quirks of `any` and `never`, and `strictNullChecks`. For example, `{ id: undefined }` is accepted at index.spec.ts:63 only through checker looseness.
- `CommonPartType` mutual assignability (src/spec/copareTypes.ts:3) is read as "admits the same values".
- `concat`, `when` with schema references, and `extend` are left out. They appear only as TODO comments (index.ts:73-81, src/index.ts:14-17).
- `valid` on arrays (index.spec.ts:194) is left out. It is not overridden by the declarations, so the fallback `this` overload keeps the schema as it was, and the model uses the schema without it.
- Only tree-shaped schemas are modelled. Cyclic schema graphs cannot be written as finite trees.
- BoxModel.Valid: a value outside the kind's base type, as in `string().valid(5)`, compiles through the untyped overload `valid(...values: any[]): this` (index.ts:93-94, 116-117, 142-143, 165-166). That call leaves the schema unchanged. The precondition excludes such values, and the model of that call is the schema itself.
- BoxModel.Default: likewise, a default outside the base type hits `default(value: any): this` (index.ts:88, 111, 137, 160) and leaves the schema unchanged. The precondition excludes it.
- ExtensionModel.Valid: a value outside `V` is a compile error. `T extends ValueType` (src/index.ts:79-84) has no untyped overload, since `OmitAnyKeys` removes Joi's own. The precondition states that constraint.
- ExtensionModel.Default: likewise bound by `T extends ValueType` (src/index.ts:73).
- ExtensionModel.Allow: arguments whose widened types have different base types, as in `any().allow(1, 'a')`, do not compile. The single `T` of `allow<T>(...values: T[])` (src/index.ts:66-71) is inferred as the first candidate, `number`, and `'a'` is then rejected. `null` and `undefined` may still sit beside one base type (`allow(1, null)` gives `number | null`). The model accepts every argument list and gives the union of the widened types, so for such calls it admits more than a compiling program could.
- ExtensionModel.Valid: likewise, `valid(1, 'a')` on a `number | string` schema does not compile, because literals of different base types have no common supertype for `T` (src/index.ts:79-84). The model gives the union of the literals for such calls.
- ExtensionModel.ItemType: an item that is not an extended schema does not compile, since `items<T extends GenericSchema[]>` (src/index.ts:19, 128) demands one. The model keeps the `never` branch of `ResolveArrayTypes` (src/index.ts:122) for it rather than excluding such items by a precondition.
- BoxModel.DefaultArray: takes scalar element values only. Nested array or object literals as default elements are not modelled.
- Types.Subtype: sound but not complete. It approximates TypeScript's `extends` structurally, so `Guard` may fall back to `T` where the compiler would keep `S`.
- BoxModel.ExtractOne: a bare key map nested inside a bare list extracts to `any`. In the source, `mappedSchemaMap<infer O>` never uses `O`, so the inference gives `unknown`, which `Inhabits` treats like `any`.
- BoxModel.Constructor: function types are not told apart by signature. The value model has one function value, so `func<typeof someFunction>()` holds `Function`.
- Number literals are integers (`LNum(int)`). No test uses a fractional number, and floating point is not modelled.
- The tests src/spec/types/string.ts, types/any.ts, types/array2.ts, any/default.ts, any/allow.ts and any/valid.ts write `Joi.pullType<typeof schema>` with one type argument. `pullType<V, O>` (src/index.ts:323) takes two and has no defaults, so as written these lines do not type-check. ExtensionExamples.StringTest, AnyTest, DefaultTest, AllowTest, ValidTest, ValidRejects, NumberOrStringElements and ArrayItemsTest read them as `extractType<typeof schema>`, which their sibling tests use.
- ExtensionModel.Allow: with no arguments `T` is `unknown`, modelled as `any`. The model does not tell the two apart.
- The tests at index.spec.ts:61-102 and 127-135 (`apply`, `rule_flat`, `rule`, `ruleMap`, `jobOperatorRoleSchema`, the appended schema) are not restated as concrete lemmas. Their rules (`Items`, `Keys`, `PatternRegex`, `Append` and the object partition) are stated by the members above.
