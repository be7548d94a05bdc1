/**
 * The per-model file planner of src/generator.ts: each writer call is a
 * pure function of (model, config) returning the ordered imports or
 * statements it would add to the source file.
 */
module Generator {
  import opened Wrappers
  import opened Strings
  import opened Dmmf
  import opened Configuration
  import opened Collaborators
  import opened Types
  import opened Declarations

  /** 1 when `b` holds, else 0: how many entries a guarded push adds. */
  function Count(b: bool): nat {
    if b then 1 else 0
  }

  // ---------------------------------------------------------------- imports

  const ZodImport: ImportDecl := ImportDecl(["z"], None, "zod", false)

  const DecimalImport: ImportDecl := ImportDecl(["Decimal"], None, "decimal.js", false)

  /** The user's helper module, imported as the `imports` namespace. */
  function NamespaceImport(imports: string, options: PrismaOptions, env: Env): ImportDecl {
    var target := env.path.resolve(env.path.dirname(options.schemaPath), imports);
    ImportDecl([], Some("imports"), env.util.dotSlash(env.path.relative(options.outputPath, target)), false)
  }

  predicate DecimalNeeded(m: Model, c: Config) {
    c.useDecimalJs && HasFieldOfType(m, "Decimal")
  }

  /** The enum types a model's enum fields use, each once, in order of first use. */
  function EnumImport(m: Model, c: Config, options: PrismaOptions, env: Env): (r: ImportDecl)
    ensures r.namedImports == Dedup(TypeNames(EnumFields(m)))
    ensures Truthy(c.enumFile) ==> r.moduleSpecifier == env.util.dotSlash(c.enumFile.value)
    ensures !Truthy(c.enumFile) ==>
              r.moduleSpecifier == env.util.dotSlash(env.path.relative(options.outputPath, options.clientPath))
    ensures r.namespaceImport.None? && (|EnumFields(m)| > 0 ==> !r.isTypeOnly)
  {
    var relativePath := env.path.relative(options.outputPath, options.clientPath);
    ImportDecl(Dedup(TypeNames(EnumFields(m))), None, env.util.dotSlash(OrElse(c.enumFile, relativePath)),
               |EnumFields(m)| == 0)
  }

  /** The enum import names every enum type the model's enum fields use, each once, in order of first use, and nothing else. */
  lemma EnumImportNames(m: Model, c: Config, options: PrismaOptions, env: Env)
    ensures var r := EnumImport(m, c, options, env);
            && NoDuplicates(r.namedImports)
            && (forall f :: f in m.fields && f.kind == Enum ==> f.typeName in r.namedImports)
            && (forall t :: t in r.namedImports ==> exists f :: f in m.fields && f.kind == Enum && f.typeName == t)
            && FirstOccurrenceOrder(TypeNames(EnumFields(m)), r.namedImports)
  {
    var enumFields := EnumFields(m);
    var types := TypeNames(enumFields);
    forall t | t in types ensures exists f :: f in enumFields && f.typeName == t {
      var i :| 0 <= i < |types| && types[i] == t;
      assert enumFields[i] in enumFields;
    }
    forall f | f in enumFields ensures f.typeName in types {
      var i :| 0 <= i < |enumFields| && enumFields[i] == f;
      assert types[i] == f.typeName;
    }
  }

  /** Relation fields pointing at another model (self-relations are already in scope). */
  function ForeignRelationFields(m: Model): seq<Field> {
    Filter(RelationFields(m), (f: Field) => f.typeName != m.name)
  }

  predicate IsForeignRelation(m: Model, f: Field) {
    f in m.fields && f.kind == Object && f.typeName != m.name
  }

  /** The names one relation target contributes to the import. */
  function TargetNames(t: string, related: string -> string): seq<string> {
    ["Complete" + t + "Input", "Complete" + t + "Output", related(t)]
  }

  /** `flatMap`: each field contributes its three names, in field order. */
  function AllTargetNames(fs: seq<Field>, related: string -> string): (r: seq<string>)
    ensures |r| == 3 * |fs|
    ensures forall x :: x in r <==> exists f :: f in fs && x in TargetNames(f.typeName, related)
  {
    if |fs| == 0 then []
    else
      var rest := AllTargetNames(fs[1..], related);
      assert forall f :: f in fs[1..] ==> f in fs;
      assert forall f :: f in fs ==> f == fs[0] || f in fs[1..];
      TargetNames(fs[0].typeName, related) + rest
  }

  /** The flat-mapped names come in blocks of three, block `i` being the names of field `i`'s target. */
  lemma {:induction false} AllTargetNamesBlocks(fs: seq<Field>, related: string -> string)
    ensures forall i :: 0 <= i < |fs| ==>
              AllTargetNames(fs, related)[3 * i..3 * i + 3] == TargetNames(fs[i].typeName, related)
  {
    if |fs| > 0 {
      AllTargetNamesBlocks(fs[1..], related);
      var r := AllTargetNames(fs, related);
      var rest := AllTargetNames(fs[1..], related);
      assert r == TargetNames(fs[0].typeName, related) + rest;
      forall i | 0 <= i < |fs| ensures r[3 * i..3 * i + 3] == TargetNames(fs[i].typeName, related) {
        if i > 0 {
          assert r[3 * i..3 * i + 3] == rest[3 * (i - 1)..3 * (i - 1) + 3];
          assert fs[i] == fs[1..][i - 1];
        }
      }
    }
  }

  /**
   * The names imported from the barrel: for every relation target other
   * than the model itself, its two companion interfaces and its related
   * schema, each once.
   */
  function RelationImportNames(m: Model, related: string -> string): (r: seq<string>)
    ensures NoDuplicates(r)
    ensures forall f :: IsForeignRelation(m, f) ==>
              forall x :: x in TargetNames(f.typeName, related) ==> x in r
    ensures forall x :: x in r ==> exists f :: IsForeignRelation(m, f) && x in TargetNames(f.typeName, related)
    ensures forall x :: x in r <==> x in AllTargetNames(ForeignRelationFields(m), related)
    ensures FirstOccurrenceOrder(AllTargetNames(ForeignRelationFields(m), related), r)
  {
    Dedup(AllTargetNames(ForeignRelationFields(m), related))
  }

  function RelationImport(m: Model, related: string -> string): ImportDecl {
    ImportDecl(RelationImportNames(m, related), None, "./index", false)
  }

  predicate RelationImportNeeded(m: Model, c: Config) {
    c.relationModel != RelationFalse && |RelationFields(m)| > 0 && |ForeignRelationFields(m)| > 0
  }

  /**
   * The import list in push order: `zod` first, then each optional import
   * whose guard holds.
   */
  function AssembleImports(
    g1: bool, namespace: ImportDecl, g2: bool, g3: bool, enumImport: ImportDecl, g4: bool, relationImport: ImportDecl)
    : (r: seq<ImportDecl>)
    ensures |r| == 1 + Count(g1) + Count(g2) + Count(g3) + Count(g4)
    ensures r[0] == ZodImport
    ensures g1 ==> r[1] == namespace
    ensures g2 ==> r[1 + Count(g1)] == DecimalImport
    ensures g3 ==> r[1 + Count(g1) + Count(g2)] == enumImport
    ensures g4 ==> r[|r| - 1] == relationImport
    ensures forall i :: 0 <= i < |r| && (i != 1 || !g1) ==>
              r[i] == ZodImport || r[i] == DecimalImport || (g3 && r[i] == enumImport) || r[i] == relationImport
  {
    [ZodImport]
    + (if g1 then [namespace] else [])
    + (if g2 then [DecimalImport] else [])
    + (if g3 then [enumImport] else [])
    + (if g4 then [relationImport] else [])
  }

  /**
   * `writeImportsForModel`: `zod` first, then each guarded import in a
   * fixed order (no sorting).
   */
  function ImportsForModel(m: Model, c: Config, options: PrismaOptions, env: Env): (r: seq<ImportDecl>)
    ensures var g1, g2, g3, g4 := Truthy(c.imports), DecimalNeeded(m, c), |EnumFields(m)| > 0, RelationImportNeeded(m, c);
      && |r| == 1 + Count(g1) + Count(g2) + Count(g3) + Count(g4)
      && r[0] == ZodImport
      && (g1 ==> r[1] == NamespaceImport(c.imports.value, options, env))
      && (g2 ==> r[1 + Count(g1)] == DecimalImport)
      && (g3 ==> r[1 + Count(g1) + Count(g2)] == EnumImport(m, c, options, env))
      && (g4 ==> r[|r| - 1] == RelationImport(m, env.util.useModelNames(c).relatedModelName))
    ensures forall i :: 0 <= i < |r| ==> !r[i].isTypeOnly
    ensures forall i :: 0 <= i < |r| ==> (r[i].namespaceImport.Some? <==> Truthy(c.imports) && i == 1)
  {
    var g1 := Truthy(c.imports);
    var namespace := if g1 then NamespaceImport(c.imports.value, options, env) else ZodImport;
    var enumImport := EnumImport(m, c, options, env);
    assert enumImport.namespaceImport.None? && (|EnumFields(m)| > 0 ==> !enumImport.isTypeOnly);
    var relationImport := RelationImport(m, env.util.useModelNames(c).relatedModelName);
    assert namespace.namespaceImport.Some? <==> g1;
    AssembledFlags(g1, namespace, DecimalNeeded(m, c), |EnumFields(m)| > 0, enumImport,
                   RelationImportNeeded(m, c), relationImport);
    AssembleImports(g1, namespace, DecimalNeeded(m, c), |EnumFields(m)| > 0, enumImport,
                    RelationImportNeeded(m, c), relationImport)
  }

  /** No assembled import is type-only, and only the namespace import, second when present, binds a namespace. */
  lemma AssembledFlags(
    g1: bool, namespace: ImportDecl, g2: bool, g3: bool, enumImport: ImportDecl, g4: bool, relationImport: ImportDecl)
    requires !namespace.isTypeOnly && (namespace.namespaceImport.Some? <==> g1)
    requires enumImport.namespaceImport.None? && (g3 ==> !enumImport.isTypeOnly)
    requires relationImport.namespaceImport.None? && !relationImport.isTypeOnly
    ensures var r := AssembleImports(g1, namespace, g2, g3, enumImport, g4, relationImport);
            && (forall i :: 0 <= i < |r| ==> !r[i].isTypeOnly)
            && (forall i :: 0 <= i < |r| ==> (r[i].namespaceImport.Some? <==> g1 && i == 1))
  {
  }

  // ------------------------------------------------- type-specific helpers

  /** The JSON helper block's fixed lines and the heads of its two configurable lines. */
  const LiteralHead := "type Literal = boolean | number | string"
  // Split so that its closing `z.boolean()` is visible to the proofs below.
  const UnionHead := "const literalSchema = z.union([z.string(), z.number(), " + "z.boolean()"

  const JsonComment := "// Helper schema for JSON fields"
  const JsonTypeLine := "type Json = Literal | { [key: string]: Json } | Json[]"
  // The typed constant of the helper, split after its lazy wrapper's opening.
  const JsonSchemaHead := "const jsonSchema: z.ZodSchema<Json> = z.lazy("
  const JsonSchemaLine :=
    JsonSchemaHead + "() => z.union([literalSchema, z.array(jsonSchema), z.record(jsonSchema)]))"

  function LiteralLine(c: Config): string {
    LiteralHead + (if c.prismaJsonNullability then "" else "| null")
  }

  function LiteralSchemaLine(c: Config): string {
    UnionHead + (if c.prismaJsonNullability then "" else ", z.null()") + "])"
  }

  lemma LiteralLineFacts(c: Config)
    ensures StartsWith(LiteralLine(c), LiteralHead)
    ensures EndsWith(LiteralLine(c), "| null") <==> !c.prismaJsonNullability
  {
    var nullLiteral := if c.prismaJsonNullability then "" else "| null";
    ConcatAffixes(LiteralHead, nullLiteral);
    if c.prismaJsonNullability && EndsWith(LiteralLine(c), "| null") {
      CharFromEnd(LiteralLine(c), "| null", 1);
    }
  }

  lemma LiteralSchemaLineFacts(c: Config)
    ensures StartsWith(LiteralSchemaLine(c), UnionHead)
    ensures EndsWith(LiteralSchemaLine(c), ", z.null()])") <==> !c.prismaJsonNullability
  {
    var nullSchema := if c.prismaJsonNullability then "" else ", z.null()";
    assert LiteralSchemaLine(c) == UnionHead + (nullSchema + "])");
    ConcatAffixes(UnionHead, nullSchema + "])");
    if c.prismaJsonNullability {
      NoNullSchemaSuffix();
    } else {
      ConcatAffixes(UnionHead + nullSchema, "])");
    }
  }

  lemma NoNullSchemaSuffix()
    ensures !EndsWith(UnionHead + "])", ", z.null()])")
  {
    var s := UnionHead + "])";
    assert s == "const literalSchema = z.union([z.string(), z.number(), " + "z.boolean()])";
    assert s[|s| - 5] == 'n';
  }

  /** The JSON helper block; the `null` literal is allowed unless Prisma's JSON nullability is in force. */
  function JsonHelperLines(c: Config): (r: seq<string>)
    ensures |r| == 5 && r[0] == JsonComment
    ensures StartsWith(r[1], LiteralHead)
    ensures EndsWith(r[1], "| null") <==> !c.prismaJsonNullability
    ensures StartsWith(r[3], UnionHead)
    ensures EndsWith(r[3], ", z.null()])") <==> !c.prismaJsonNullability
  {
    LiteralLineFacts(c);
    LiteralSchemaLineFacts(c);
    [JsonComment, LiteralLine(c), JsonTypeLine, LiteralSchemaLine(c), JsonSchemaLine]
  }

  /** The helper's own typed constant, `jsonSchema`, is also wrapped in `z.lazy`, since it refers to itself. */
  lemma JsonHelperSchemaIsLazy(c: Config)
    ensures StartsWith(JsonHelperLines(c)[4], JsonSchemaHead)
  {
    ConcatAffixes(JsonSchemaHead,
                  "() => z.union([literalSchema, z.array(jsonSchema), z.record(jsonSchema)]))");
  }

  /** The Decimal helper: an unnamed expression statement accepting a `Decimal`, string or number. */
  const DecimalHelperLines: seq<string> := [
    "// Helper schema for Decimal fields",
    "z",
    ".instanceof(Decimal)",
    ".or(z.string())",
    ".or(z.number())",
    ".refine((value) => {",
    "  try {",
    "    return new Decimal(value);",
    "  } catch (error) {",
    "    return false;",
    "  }",
    "})",
    ".transform((value) => new Decimal(value));"
  ]

  predicate HasJsonField(m: Model) {
    HasFieldOfType(m, "Json")
  }

  /** `writeTypeSpecificSchemas`: the JSON helper, then the Decimal helper, each under its guard. */
  function TypeSpecificSchemas(m: Model, c: Config): (r: seq<Decl>)
    ensures |r| == Count(HasJsonField(m)) + Count(DecimalNeeded(m, c))
    ensures JsonHelperCount(r) == Count(HasJsonField(m))
    ensures LazyCount(r) == 0
    ensures HasJsonField(m) ==> r[0] == JsonHelper(JsonHelperLines(c))
    ensures DecimalNeeded(m, c) ==> r[|r| - 1] == DecimalHelper(DecimalHelperLines)
  {
    var json := if HasJsonField(m) then [JsonHelper(JsonHelperLines(c))] else [];
    var decimal := if DecimalNeeded(m, c) then [DecimalHelper(DecimalHelperLines)] else [];
    CountsConcat(json, decimal);
    json + decimal
  }

  // ------------------------------------------------------------ base schema

  /** One object entry: the field's JSDoc lines, its name and its validator. */
  function FieldProperty(f: Field, c: Config, getRelatedModelName: Option<string -> string>, docs: Docs): Property {
    Property(docs.getJSDocs(f.documentation), f.name,
             GetZodConstructor(f, c.dateTimeSchema, c.nullableType, getRelatedModelName, docs))
  }

  /** One object entry per field, in order. */
  function Shape(fs: seq<Field>, c: Config, getRelatedModelName: Option<string -> string>, docs: Docs): (r: seq<Property>)
    ensures |r| == |fs|
    ensures forall i :: 0 <= i < |fs| ==> r[i] == FieldProperty(fs[i], c, getRelatedModelName, docs)
  {
    seq(|fs|, i requires 0 <= i < |fs| => FieldProperty(fs[i], c, getRelatedModelName, docs))
  }

  /** The entries are named after the fields, in order, and after nothing else. */
  lemma {:induction false} ShapeNames(fs: seq<Field>, c: Config, getRelatedModelName: Option<string -> string>, docs: Docs)
    ensures PropertyNames(Shape(fs, c, getRelatedModelName, docs)) == Names(fs)
    ensures forall p :: p in Shape(fs, c, getRelatedModelName, docs) ==> exists f :: f in fs && p.name == f.name
  {
    var shape := Shape(fs, c, getRelatedModelName, docs);
    forall p | p in shape ensures exists f :: f in fs && p.name == f.name {
      var i :| 0 <= i < |shape| && shape[i] == p;
      assert fs[i] in fs;
    }
  }

  /** `generateSchemaForModel`: `export const <modelName> = z.object({ ... })` over the non-relation fields. */
  function BaseSchema(m: Model, c: Config, env: Env): (r: Decl)
    ensures r.Const? && r.typeAnnotation.None? && r.init.ZodObject?
    ensures r.name == env.util.useModelNames(c).modelName(m.name)
    ensures r.init.shape == Shape(NonRelationFields(m), c, None, env.docs)
  {
    Const(env.util.useModelNames(c).modelName(m.name), None, ZodObject(Shape(NonRelationFields(m), c, None, env.docs)))
  }

  /** The base object has one entry per non-relation field, in declaration order, and no other. */
  lemma BaseSchemaFields(m: Model, c: Config, env: Env)
    ensures var r := BaseSchema(m, c, env);
            && PropertyNames(r.init.shape) == Names(NonRelationFields(m))
            && forall p :: p in r.init.shape ==> exists f :: f in m.fields && f.kind != Object && p.name == f.name
  {
    ShapeNames(NonRelationFields(m), c, None, env.docs);
  }

  // --------------------------------------------------------- related schema

  datatype Direction = Input | Output

  /** `Complete{T}Input` or `Complete{T}Output`. */
  function CompleteName(t: string, d: Direction): string {
    "Complete" + t + DirectionSuffix(d)
  }

  function DirectionSuffix(d: Direction): string {
    if d == Input then "Input" else "Output"
  }

  /** An interface property's type: the target's companion, `[]` for a list, ` | null` when optional. */
  function PropertyType(f: Field, d: Direction): string {
    CompleteName(f.typeName, d) + (if f.isList then "[]" else "") + (if !f.isRequired then " | null" else "")
  }

  function InterfaceProps(fs: seq<Field>, d: Direction): (r: seq<InterfaceProp>)
    ensures |r| == |fs|
    ensures forall i :: 0 <= i < |fs| ==>
              r[i].name == fs[i].name && (r[i].optional <==> !fs[i].isRequired) && r[i].typeText == PropertyType(fs[i], d)
  {
    if |fs| == 0 then []
    else [InterfaceProp(fs[0].name, !fs[0].isRequired, PropertyType(fs[0], d))] + InterfaceProps(fs[1..], d)
  }

  /** `z.input<typeof X>` for the Input interface, `z.infer<typeof X>` for the Output one. */
  function Heritage(baseName: string, d: Direction): string {
    (if d == Input then "z.input<typeof " else "z.infer<typeof ") + baseName + ">"
  }

  /** `Complete{T}Input` / `Complete{T}Output`: the base schema's type plus one property per relation field. */
  function CompleteInterface(m: Model, c: Config, env: Env, d: Direction): (r: Decl)
    ensures r.Interface? && r.name == CompleteName(m.name, d)
    ensures r.heritage == [Heritage(env.util.useModelNames(c).modelName(m.name), d)]
    ensures r.properties == InterfaceProps(RelationFields(m), d)
  {
    Interface(CompleteName(m.name, d), [Heritage(env.util.useModelNames(c).modelName(m.name), d)],
              InterfaceProps(RelationFields(m), d))
  }

  /** One interface property per relation field, in order: optional iff the field is, typed by `PropertyType`. */
  lemma CompleteInterfaceProperties(m: Model, c: Config, env: Env, d: Direction)
    ensures var r := CompleteInterface(m, c, env, d);
            && |r.properties| == |RelationFields(m)|
            && forall i :: 0 <= i < |r.properties| ==>
                 var f := RelationFields(m)[i];
                 r.properties[i].name == f.name && (r.properties[i].optional <==> !f.isRequired)
                 && r.properties[i].typeText == PropertyType(f, d)
  {
  }

  /** The comment before the related schema; `// @ts-ignore` closes it when relation types are ignored. */
  function RelatedComment(m: Model, c: Config, env: Env): (r: Decl)
    ensures r.CommentBlock? && |r.lines| == 6 + Count(IgnoreRelationTypes(c))
    ensures r.lines[..6] == RelatedCommentHeader(env.util.useModelNames(c).relatedModelName(m.name))
    ensures r.lines[|r.lines| - 1] == "// @ts-ignore" <==> IgnoreRelationTypes(c)
  {
    var header := RelatedCommentHeader(env.util.useModelNames(c).relatedModelName(m.name));
    CommentBlock(header + (if IgnoreRelationTypes(c) then ["// @ts-ignore"] else []))
  }

  const CommentIntro := " contains all relations on your model in addition to the scalars"
  const CommentNote := " * NOTE: Lazy required in case of potential circular dependencies within schema"

  function RelatedCommentHeader(related: string): (r: seq<string>)
    ensures |r| == 6 && r[2] == " * " + related + CommentIntro
  {
    ["", "/**", " * " + related + CommentIntro, " *", CommentNote, " */"]
  }

  /** The related schema's declared type, naming both companion interfaces. */
  function RelatedAnnotation(m: Model): string {
    "z.ZodSchema<" + CompleteName(m.name, Output) + ", z.ZodTypeDef, " + CompleteName(m.name, Input) + ">"
  }

  /**
   * `export const <related>: z.ZodSchema<...> = z.lazy(() => <base>.extend({ ... }))`
   * over the relation fields, each compiled with `relatedModelName`.
   */
  function RelatedSchema(m: Model, c: Config, env: Env): (r: Decl)
    ensures IsLazyConst(r) && r.typeAnnotation == Some(RelatedAnnotation(m))
    ensures var names := env.util.useModelNames(c);
            && r.name == names.relatedModelName(m.name) && r.init.base == names.modelName(m.name)
            && r.init.extension == Shape(RelationFields(m), c, Some(names.relatedModelName), env.docs)
  {
    var names := env.util.useModelNames(c);
    Const(names.relatedModelName(m.name), Some(RelatedAnnotation(m)),
          Lazy(names.modelName(m.name), Shape(RelationFields(m), c, Some(names.relatedModelName), env.docs)))
  }

  /** The lazy extension has one entry per relation field, in order, compiled with `relatedModelName`. */
  lemma RelatedSchemaEntries(m: Model, c: Config, env: Env)
    ensures var r := RelatedSchema(m, c, env);
            var related := env.util.useModelNames(c).relatedModelName;
            && PropertyNames(r.init.extension) == Names(RelationFields(m))
            && |r.init.extension| == |RelationFields(m)|
            && forall i :: 0 <= i < |r.init.extension| ==>
                 r.init.extension[i].expr
                 == GetZodConstructor(RelationFields(m)[i], c.dateTimeSchema, c.nullableType, Some(related), env.docs)
  {
    ShapeNames(RelationFields(m), c, Some(env.util.useModelNames(c).relatedModelName), env.docs);
  }

  /** `generateRelatedSchemaForModel`: Input interface, Output interface, comment, related schema. */
  function RelatedSchemaForModel(m: Model, c: Config, env: Env): (r: seq<Decl>)
    ensures |r| == 4
    ensures r[0] == CompleteInterface(m, c, env, Input) && r[1] == CompleteInterface(m, c, env, Output)
    ensures r[2] == RelatedComment(m, c, env) && r[3] == RelatedSchema(m, c, env)
  {
    FourOf(CompleteInterface(m, c, env, Input), CompleteInterface(m, c, env, Output),
           RelatedComment(m, c, env), RelatedSchema(m, c, env))
  }

  function FourOf<T>(a: T, b: T, d: T, e: T): (r: seq<T>)
    ensures |r| == 4 && r[0] == a && r[1] == b && r[2] == d && r[3] == e
  {
    [a, b, d, e]
  }

  /** The related artifacts hold exactly one lazily wrapped constant and no JSON helper. */
  lemma RelatedCounts(m: Model, c: Config, env: Env)
    ensures JsonHelperCount(RelatedSchemaForModel(m, c, env)) == 0
    ensures LazyCount(RelatedSchemaForModel(m, c, env)) == 1
  {
    var r := RelatedSchemaForModel(m, c, env);
    assert r == [r[0], r[1], r[2], r[3]];
    CountsOfFour(r[0], r[1], r[2], r[3]);
  }

  lemma CountsOfFour(a: Decl, b: Decl, d: Decl, e: Decl)
    ensures JsonHelperCount([a, b, d, e])
            == Count(a.JsonHelper?) + Count(b.JsonHelper?) + Count(d.JsonHelper?) + Count(e.JsonHelper?)
    ensures LazyCount([a, b, d, e]) == Count(IsLazyConst(a)) + Count(IsLazyConst(b)) + Count(IsLazyConst(d)) + Count(IsLazyConst(e))
  {
    CountsSingle(a); CountsSingle(b); CountsSingle(d); CountsSingle(e);
    assert [a, b, d, e] == [a] + [b] + [d] + [e];
    CountsConcat([a], [b]);
    CountsConcat([a] + [b], [d]);
    CountsConcat([a] + [b] + [d], [e]);
  }

  // -------------------------------------------------------------- the files

  /**
   * The statements of a model file: type-specific helpers, the base
   * schema, then the related artifacts when `needsRelatedModel` holds.
   */
  function ModelStatements(m: Model, c: Config, env: Env): (r: seq<Decl>)
    ensures var helpers := TypeSpecificSchemas(m, c);
            var related := env.util.needsRelatedModel(m, c);
            && |r| == |helpers| + 1 + 4 * Count(related)
            && r[..|helpers|] == helpers
            && r[|helpers|] == BaseSchema(m, c, env)
            && r[|helpers| + 1..] == (if related then RelatedSchemaForModel(m, c, env) else [])
  {
    var helpers := TypeSpecificSchemas(m, c);
    var related := if env.util.needsRelatedModel(m, c) then RelatedSchemaForModel(m, c, env) else [];
    AssembleStatements(helpers, BaseSchema(m, c, env), related)
  }

  /** The statements in writing order: helpers, the base schema, then whatever follows it. */
  function AssembleStatements(helpers: seq<Decl>, base: Decl, related: seq<Decl>): (r: seq<Decl>)
    ensures |r| == |helpers| + 1 + |related|
    ensures r[..|helpers|] == helpers && r[|helpers|] == base && r[|helpers| + 1..] == related
  {
    var r := helpers + [base] + related;
    assert r[..|helpers|] == helpers;
    assert r[|helpers| + 1..] == related;
    r
  }

  /** `populateModelFile`: the imports are written first, then the statements. */
  function PopulateModelFile(m: Model, c: Config, options: PrismaOptions, env: Env): ModelFile {
    ModelFile(ImportsForModel(m, c, options, env), ModelStatements(m, c, env))
  }

  /** A model file holds the JSON helper iff a field is `Json`, and one lazy schema iff the related schema is wanted. */
  lemma {:induction false} ModelFileCounts(m: Model, c: Config, env: Env)
    ensures JsonHelperCount(ModelStatements(m, c, env)) == Count(HasJsonField(m))
    ensures LazyCount(ModelStatements(m, c, env)) == Count(env.util.needsRelatedModel(m, c))
  {
    var helpers := TypeSpecificSchemas(m, c);
    var base := BaseSchema(m, c, env);
    var related := if env.util.needsRelatedModel(m, c) then RelatedSchemaForModel(m, c, env) else [];
    if env.util.needsRelatedModel(m, c) { RelatedCounts(m, c, env); }
    CountsOfParts(helpers, base, related);
  }

  lemma CountsOfParts(helpers: seq<Decl>, base: Decl, related: seq<Decl>)
    ensures JsonHelperCount(helpers + [base] + related)
            == JsonHelperCount(helpers) + (if base.JsonHelper? then 1 else 0) + JsonHelperCount(related)
    ensures LazyCount(helpers + [base] + related)
            == LazyCount(helpers) + (if IsLazyConst(base) then 1 else 0) + LazyCount(related)
  {
    CountsSingle(base);
    CountsConcat(helpers, [base]);
    CountsConcat(helpers + [base], related);
  }

  /** `dbName || name`: an empty or missing database name falls back to the value's name. */
  function EnumEntries(values: seq<EnumValue>): (r: seq<Entry>)
    ensures |r| == |values|
    ensures forall i :: 0 <= i < |values| ==>
              r[i] == Entry(values[i].name, OrElse(values[i].dbName, values[i].name))
  {
    if |values| == 0 then []
    else [Entry(values[0].name, OrElse(values[0].dbName, values[0].name))] + EnumEntries(values[1..])
  }

  /** `populateEnumFile`: one `export const E = { ... } as const` per enum, in order. */
  function PopulateEnumFile(enums: seq<DatamodelEnum>): (r: seq<Decl>)
    ensures |r| == |enums|
    ensures forall i :: 0 <= i < |enums| ==>
              r[i].Const? && r[i].name == enums[i].name && r[i].typeAnnotation.None?
              && r[i].init == AsConst(EnumEntries(enums[i].values))
  {
    if |enums| == 0 then []
    else [Const(enums[0].name, None, AsConst(EnumEntries(enums[0].values)))] + PopulateEnumFile(enums[1..])
  }

  /** `generateBarrelFile`: `./<model>` for every model in order, then `./<enumFile>` when set. */
  function GenerateBarrelFile(models: seq<Model>, enumFile: Option<string>): (r: seq<ExportDecl>)
    ensures |r| == |models| + Count(Truthy(enumFile))
    ensures forall i :: 0 <= i < |models| ==> r[i].moduleSpecifier == "./" + models[i].name
    ensures Truthy(enumFile) ==> r[|models|].moduleSpecifier == "./" + enumFile.value
  {
    ModelExports(models) + (if Truthy(enumFile) then [ExportDecl("./" + enumFile.value)] else [])
  }

  function ModelExports(models: seq<Model>): (r: seq<ExportDecl>)
    ensures |r| == |models|
    ensures forall i :: 0 <= i < |models| ==> r[i].moduleSpecifier == "./" + models[i].name
  {
    if |models| == 0 then [] else [ExportDecl("./" + models[0].name)] + ModelExports(models[1..])
  }
}
