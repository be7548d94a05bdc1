# zod-prisma, modelled in Dafny

zod-prisma is a Prisma generator. For every model of a Prisma schema it writes a
TypeScript file that declares a Zod validator for the model. The file contains
these parts:

- a base `z.object` over every non-relation field (scalar, enum and unsupported);
- when the model needs one, two companion interfaces (`Complete{T}Input` and
  `Complete{T}Output`) and a related schema that adds the relation fields inside
  `z.lazy(...)`;
- the imports and helper blocks those declarations need.

The generator also writes a barrel module that re-exports every model file.
When `enumFile` is configured it writes an enum module too (src/index.ts:71-84).

This project models the decisions behind that output, not the text layout:

- **The field compiler** (`getZodConstructor`, module `Types`). A field becomes
  a validator expression in four stages: a base expression chosen from the
  field's kind and type; a documentation override that may replace it; a
  modifier list in a fixed order; and the final join.
- **The per-model planner** (module `Generator`). Each writer call of
  `src/generator.ts` is a pure function of (model, config). It returns the
  ordered imports or statements it would add to the file, as datatypes
  (`ImportDecl`, `Decl`, `ExportDecl`) rather than formatted text.
- **Properties** (modules `TypesProperties` and `GeneratorProperties`). These
  lemmas relate several functions, or relate one function to an independent
  reading of its output. Examples:
  - the interface property types parse back to the field they came from;
  - the modifier list is the only list meeting its contract;
  - every related schema is lazy and extends the base schema before it;
  - a model whose relations all point at itself imports nothing from the barrel;
  - the barrel and enum modules list exactly what they were given.

Some code is called but its source is not part of this model:

- `./docs`: `computeCustomSchema`, `computeModifiers`, `getJSDocs`;
- `./util`: `useModelNames`, `needsRelatedModel`, `dotSlash`;
- Node's `path`.

These become function-valued fields of the `Collaborators.Env` datatype. Every
result therefore holds for every implementation of them.

Files:

- `wrappers.dfy`, `strings.dfy`: `Option`, and the JavaScript semantics in use
  (truthiness of optional strings, `join`, `filter`, `Array.from(new Set(..))`);
- `dmmf.dfy`: fields, models and enums as Prisma describes them;
- `configuration.dfy`: the resolved options and the three host paths;
- `collaborators.dfy`: the external functions;
- `declarations.dfy`: the pieces of a generated file;
- `types.dfy`, `types_properties.dfy`: the field compiler;
- `generator.dfy`, `generator_properties.dfy`: the planner.

Behaviour of the code worth noting:

- A `Decimal` field is compiled to `z.number()`, not to a coercing validator,
  even when `useDecimalJs` is set (src/types.ts:55-56).
- The Decimal helper block is an unnamed expression statement. No constant is
  bound to it (src/generator.ts:107-121).
- Imports are written in push order and never sorted (src/generator.ts:21-80).
- Whether a field is `Json` or `Decimal` is decided by its type name alone,
  whatever its kind (src/generator.ts:39, 89; src/types.ts:80). `Dmmf.HasFieldOfType`
  and `Types.NeedsNullability` compare names only.
- The enum import carries `isTypeOnly: enumFields.length === 0`. It is only
  built when there are enum fields, so the flag is always false
  (src/generator.ts:51-57).

## Model

| member | source | states |
|---|---|---|
| TypesProperties.EnumFieldExpression | src/types.ts:69-70 | A required, non-list, undocumented enum field renders as exactly `z.nativeEnum(T)`, with `T` its enum type. |
| TypesProperties.DefaultRelatedNameIsTypeName | src/types.ts:11-12 | Compiled without a related-name function, a required, non-list, undocumented relation field renders as its target's type name itself. |
| TypesProperties.RelationFieldExpression | src/types.ts:69-92 | An undocumented relation field compiled with `relatedModelName` renders as the target's related name, `.array()` for a list, then the nullability modifier when optional. |
| TypesProperties.ScalarExpressionMatchesTable | src/types.ts:24-67 | For every type the scalar table lists (String, Int, BigInt, DateTime, Float, Decimal, Json, Boolean, Bytes), the scalar switch returns the table's validator. Decimal maps to `z.number()` and Json to the bare `jsonSchema`. |
| TypesProperties.UnlistedScalarIsUnknown | src/types.ts:21-67 | The scalar switch is total: a type the table does not list gets the initial `z.unknown()`. |
| TypesProperties.DateTimeExpressionRoundTrip | src/types.ts:35-50 | Each of the three DateTime modes yields its own expression. The three expressions differ, so the mode can be read back from the expression. |
| Types.ModifierList | src/types.ts:22-92 | The modifiers are stage-ordered: `int()`, `array()`, the documentation's fragments, then nullability. `int()` is present iff the field is an Int scalar and `array()` iff it is a list. The fragments are exactly `computeModifiers(doc)`, in order. `nullable()` / `nullish()` are present iff the field is optional, not Json, and the mode selects that modifier. No fixed modifier appears twice. |
| TypesProperties.ModifierListDeterminedByContract | src/types.ts:22-92 | The contract above is complete. Any modifier list with that order, membership, fragments and multiplicity is the one the compiler builds. |
| TypesProperties.CanonicalForm | src/types.ts:22-92 | A stage-ordered list with no repeated fixed modifier consists of, in order: its `int()`, its `array()`, its fragments, then its nullability modifier. |
| Types.GetZodConstructor | src/types.ts:95 | Joining the list seeded with `''` gives the (possibly overridden) expression followed by `.m` for every modifier, in order. The result starts with that expression. |
| Strings.JoinAfterEmpty | src/types.ts:22 | Joining `[''] + parts` with `.` puts a `.` before every part. This is why each modifier appears as `.m`. |
| TypesProperties.PlainFieldIsBase | src/types.ts:21-95 | A required, non-list, undocumented field that is not an Int scalar renders as its base expression alone. |
| TypesProperties.UndocumentedRender | src/types.ts:21-95 | An undocumented field renders as its base expression, then `.int()` for an Int scalar, `.array()` for a list, and its nullability text. |
| TypesProperties.ListWrapBeforeNullability | src/types.ts:22-92 | For every list field that takes a nullability modifier (optional and not typed `Json`), documented or not and of any kind: the result is the (possibly overridden) expression, `.int()` for an `Int` scalar, `.array()`, the documentation's fragments, then the nullability modifier; swapping `.array()` and the nullability modifier gives a different string. |
| TypesProperties.RequirednessOnlyNullability | src/types.ts:80-92 | `isRequired` reaches the compiled field only through the nullability modifier: when that part is the same, the field compiles the same, required or not. |
| TypesProperties.JsonIgnoresRequiredness | src/types.ts:58-80 | A field typed `Json` renders the same whether it is required or not. An undocumented, non-list Json scalar renders as exactly `jsonSchema`. |
| TypesProperties.UndocumentedIgnoresDocs | src/types.ts:76-79 | Without documentation the documentation functions are never consulted: any two choices of them give the same result. |
| TypesProperties.EmptyOverrideKept | src/types.ts:77 | `??` keeps an empty custom schema: when `computeCustomSchema` returns `''`, the result is the modifier chain alone, with no base expression. |
| TypesProperties.OverrideKeepsModifiers | src/types.ts:28-92 | A custom schema replaces only the base expression: every modifier follows it. For an Int scalar the result starts with `custom.int()`, since `int()` was pushed before the override. |
| Strings.Dedup | src/generator.ts:56 | `Array.from(new Set(xs))` holds every element of `xs` exactly once, in order of first occurrence. |
| Strings.FilterSingle | src/generator.ts:47-48 | Filtering a single element keeps it iff it satisfies the predicate. |
| Strings.FilterConcat | src/generator.ts:47-48 | Filtering distributes over concatenation. With `FilterSingle` this fixes the result of `filter` on every list: the kept elements, in order, with their repeats. |
| Generator.EnumImport | src/generator.ts:47-57 | The enum import names each enum type once, in order of first use. It comes from `enumFile` when that is set (and non-empty), otherwise from the client path relative to the output. It is never a namespace import, and not type-only when there are enum fields. |
| Generator.EnumImportNames | src/generator.ts:47-57 | The enum import holds no duplicates. It names every enum field's type, and every name it holds is some enum field's type, in first-occurrence order. |
| Generator.AllTargetNames | src/generator.ts:69-73 | The flat-mapped names are three per field, and they are exactly the Input, Output and related names of the given fields' targets. |
| Generator.AllTargetNamesBlocks | src/generator.ts:69-73 | `flatMap` keeps field order: names `3i` to `3i+2` are field `i`'s target's `Complete{T}Input`, `Complete{T}Output` and `relatedModelName(T)`. |
| Generator.RelationImportNames | src/generator.ts:60-76 | The barrel import holds no duplicates. For every relation field that targets another model, it holds the target's `Complete{T}Input`, `Complete{T}Output` and `relatedModelName(T)`, and nothing else. The names keep the order of their first occurrence in the flat-mapped list. |
| Generator.ImportsForModel | src/generator.ts:14-81 | `zod` comes first. Then, each under its guard and in this order: the `imports` namespace (when `config.imports` is truthy), `Decimal`, the enum import, and the `./index` relation import. No entry is type-only, and the only namespace import is the second entry when `imports` is set. |
| Generator.AssembleImports | src/generator.ts:21-80 | Pushing guarded imports after `zod` puts each present one at its fixed position, and adds nothing else. |
| GeneratorProperties.RelationImportCondition | src/generator.ts:60-63 | The relation import is written iff `relationModel` is not `false` and some relation field targets a model other than this one. |
| GeneratorProperties.SelfRelationsNeedNoImport | src/generator.ts:60-77 | A model whose relation fields all point at itself gets no `./index` import. |
| Generator.JsonHelperLines | src/generator.ts:92-100 | The JSON helper has five lines. The `Literal` type admits `null`, and the literal schema ends with `z.null()`, iff Prisma's JSON nullability is off. |
| Generator.LiteralLineFacts | src/generator.ts:94 | The `Literal` line ends in the null alternative iff `prismaJsonNullability` is off. |
| Generator.LiteralSchemaLineFacts | src/generator.ts:96-98 | The literal schema line ends in `, z.null()])` iff `prismaJsonNullability` is off. |
| Generator.TypeSpecificSchemas | src/generator.ts:83-124 | The JSON helper is written exactly once iff some field is typed `Json`, and it comes first. The Decimal helper is written iff `useDecimalJs` is set and some field is `Decimal`, which is the Decimal import's condition, and it comes last. Neither is a lazy schema. |
| Generator.ShapeNames | src/generator.ts:145-159 | The entries are named after the fields, in order, and after nothing else. |
| Generator.BaseSchema | src/generator.ts:126-166 | The base schema is an unannotated `z.object` constant named `modelName(model)`. It is built over the non-relation fields compiled without a related-name function. |
| Generator.BaseSchemaFields | src/generator.ts:145-156 | The base object has exactly one entry per non-relation field, in declaration order. |
| GeneratorProperties.BaseSchemaIgnoresRelations | src/generator.ts:145-146 | A model's base schema equals the base schema of the same model stripped of its relation fields. |
| GeneratorProperties.InsertedRelationsKeepBaseSchema | src/generator.ts:145-146 | Relation fields inserted anywhere among a model's fields leave its base schema unchanged. |
| GeneratorProperties.NonRelationIgnoresRelatedName | src/types.ts:69-73 | Only relation fields consult the related-name function. |
| Generator.InterfaceProps | src/generator.ts:182-186 | One interface property per relation field, in order. It is optional iff the field is not required, and its type is given by `PropertyType`. |
| Generator.CompleteInterface | src/generator.ts:178-198 | The interface is named `Complete{T}Input` or `Complete{T}Output`. It extends `z.input` or `z.infer` of the base schema, and lists the relation fields' properties. |
| Generator.CompleteInterfaceProperties | src/generator.ts:182-197 | Each interface property mirrors its relation field: the same name, optional iff the field is optional, typed by `PropertyType`. |
| GeneratorProperties.PropertyTypeRoundTrip | src/generator.ts:185 | A property type is `Complete{T}Input` or `Output`, then `[]` for a list, then the null alternative when optional. Parsing it back recovers the target, the list flag and the optionality. |
| GeneratorProperties.CompanionInterfacesAgree | src/generator.ts:178-198 | The Input and Output interfaces have the same properties and optionality. Their types differ only in direction. |
| Generator.RelatedComment | src/generator.ts:200-214 | A six-line comment naming the related schema. `// @ts-ignore` closes it iff `ignoreRelationTypes` is on. |
| Generator.RelatedSchema | src/generator.ts:216-247 | The related schema is a lazy constant named `relatedModelName(model)` and typed `z.ZodSchema<Output, ZodTypeDef, Input>`. It extends `modelName(model)` with the relation fields compiled using `relatedModelName`. |
| Generator.RelatedSchemaEntries | src/generator.ts:227-241 | The lazy extension has exactly one entry per relation field, in order, each compiled with `relatedModelName`. |
| Generator.RelatedSchemaForModel | src/generator.ts:168-248 | The related artifacts are, in order: the Input interface, the Output interface, the comment, and the related schema. |
| Generator.RelatedCounts | src/generator.ts:168-248 | The related artifacts hold exactly one lazy constant and no JSON helper. |
| GeneratorProperties.RelatedTypedConstIsLazy | src/generator.ts:216-225 | Among the related artifacts, the only typed constant is lazy and extends the base schema's name. |
| GeneratorProperties.SelfRelationEntry | src/generator.ts:225-237 | An undocumented self-relation entry of the related schema refers to the related schema itself. |
| Generator.ModelStatements | src/generator.ts:277-289 | The statements of a model file are: the type-specific helpers, the base schema, then the four related artifacts iff `needsRelatedModel` holds. |
| Generator.AssembleStatements | src/generator.ts:283-288 | Writing helpers, then the base schema, then the rest places each at its slice. |
| Generator.ModelFileCounts | src/generator.ts:277-289 | A model file holds one JSON helper iff a field is typed `Json`, and one lazy schema iff `needsRelatedModel` holds. |
| GeneratorProperties.LazyRelatedSchema | src/generator.ts:277-289 | Among the statements of a model file, each constant declared with a type annotation is wrapped in `z.lazy`. It extends a `z.object` constant declared earlier in the same file, so it never refers to a later declaration. |
| Generator.JsonHelperSchemaIsLazy | src/generator.ts:99 | The JSON helper's own typed constant, `jsonSchema`, is also wrapped in `z.lazy`, since it refers to itself. |
| GeneratorProperties.LazyAfterBase | src/generator.ts:283-288 | If the helpers hold no constant, the base schema is an unannotated object, and every typed constant after it is lazy over the base, then every typed constant of the whole sequence is lazy over an earlier object. |
| Generator.EnumEntries | src/generator.ts:262-267 | One entry per enum value, in order: the key is the value's name, and the value is `dbName` when it is present and non-empty, otherwise the name. |
| Generator.PopulateEnumFile | src/generator.ts:250-275 | One unannotated `as const` constant per enum, in order, named after the enum and holding its entries. |
| GeneratorProperties.EnumLookup | src/generator.ts:262-267 | When value names are distinct, looking a value's name up in the emitted object gives its database name, or the name itself when it has none. |
| GeneratorProperties.EnumPrefix | src/generator.ts:262-267 | A prefix of the values yields the same prefix of the entries. |
| Generator.GenerateBarrelFile | src/generator.ts:291-307 | One `./{model}` re-export per model, in order, then `./{enumFile}` last iff `enumFile` is truthy. |
| GeneratorProperties.BarrelRoundTrip | src/generator.ts:291-307 | Stripping `./` from the re-exports gives back the model names in order, followed by the enum module when one is configured. |

## Left out

- Layout: the ts-morph writer calls (`inlineBlock`, `blankLineIfLastNot`, `writeArray`, trailing commas, quoting, semicolons) and the prettier pass. The model yields declarations, not text.
- `path.relative`, `path.resolve`, `path.dirname` and `dotSlash` are uninterpreted functions. The namespace and enum import specifiers are stated in terms of them.
- `computeCustomSchema`, `computeModifiers`, `getJSDocs`, `useModelNames` and `needsRelatedModel` are uninterpreted functions. Their parsing and naming rules are not part of this model, so the file contents are stated for every choice of them.
- What the emitted Zod code does at run time (the Decimal refinement, how `z.lazy` defers evaluation). Only the presence and shape of the lazy wrapper is modelled.
- `assertNever` in the two inner switches: the `DateTimeSchema` and `NullableType` datatypes have exactly the listed cases, so those branches cannot occur.
- `src/config.ts` parsing and defaulting: `Configuration.Config` holds already resolved options, with the domains of the schema.
- `src/index.ts`, the generator-handler host plumbing, file naming and saving; the functional test driver and its fixtures.
- GeneratorProperties.LazyRelatedSchema: covers the constants the planner declares. The JSON helper's `jsonSchema` constant sits inside the helper's block of lines. `JsonHelperSchemaIsLazy` states only that it is wrapped in `z.lazy`; it extends no `z.object`.
- Strings.Filter: its own contract states membership and length only. Order and repeats follow from `FilterSingle` and `FilterConcat`.
- Generator.PopulateModelFile: carries no contract of its own. It only pairs `ImportsForModel` with `ModelStatements`, whose contracts and `ModelFileCounts` state what the file holds.
