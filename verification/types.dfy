/**
 * The field compiler (`getZodConstructor` in src/types.ts): one Prisma
 * field becomes one Zod validator expression. The pipeline is
 *   base expression -> documentation override -> modifiers -> join,
 * and each stage is a function here.
 */
module Types {
  import opened Wrappers
  import opened Strings
  import opened Dmmf
  import opened Configuration
  import opened Collaborators

  /** One entry of the modifier list; each is rendered as `.text` after the expression. */
  datatype Modifier = IntCheck | ArrayOf | DocModifier(text: string) | NullableMod | NullishMod

  function ModifierText(m: Modifier): string {
    match m
    case IntCheck => "int()"
    case ArrayOf => "array()"
    case DocModifier(t) => t
    case NullableMod => "nullable()"
    case NullishMod => "nullish()"
  }

  function Texts(ms: seq<Modifier>): (r: seq<string>)
    ensures |r| == |ms|
    ensures forall i :: 0 <= i < |ms| ==> r[i] == ModifierText(ms[i])
  {
    if |ms| == 0 then [] else [ModifierText(ms[0])] + Texts(ms[1..])
  }

  /** The pipeline step that appends a modifier: int, list, documentation, nullability. */
  function Stage(m: Modifier): nat {
    match m
    case IntCheck => 0
    case ArrayOf => 1
    case DocModifier(_) => 2
    case NullableMod => 3
    case NullishMod => 3
  }

  predicate StageOrdered(ms: seq<Modifier>) {
    forall i, j :: 0 <= i < j < |ms| ==> Stage(ms[i]) <= Stage(ms[j])
  }

  /** The documentation-supplied fragments among `ms`, in order. */
  function DocTexts(ms: seq<Modifier>): seq<string> {
    if |ms| == 0 then []
    else if ms[0].DocModifier? then [ms[0].text] + DocTexts(ms[1..])
    else DocTexts(ms[1..])
  }

  function AsDocModifiers(texts: seq<string>): (r: seq<Modifier>)
    ensures |r| == |texts|
    ensures forall i :: 0 <= i < |r| ==> r[i] == DocModifier(texts[i])
  {
    if |texts| == 0 then [] else [DocModifier(texts[0])] + AsDocModifiers(texts[1..])
  }

  lemma {:induction false} DocTextsConcat(a: seq<Modifier>, b: seq<Modifier>)
    ensures DocTexts(a + b) == DocTexts(a) + DocTexts(b)
  {
    if |a| == 0 {
      assert a + b == b;
    } else {
      assert (a + b)[0] == a[0];
      assert (a + b)[1..] == a[1..] + b;
      DocTextsConcat(a[1..], b);
    }
  }

  /** Wrapping fragments as modifiers and reading them back gives the fragments. */
  lemma {:induction false} DocTextsOfDocModifiers(texts: seq<string>)
    ensures DocTexts(AsDocModifiers(texts)) == texts
  {
    if |texts| > 0 {
      var ms := AsDocModifiers(texts);
      assert ms[1..] == AsDocModifiers(texts[1..]);
      DocTextsOfDocModifiers(texts[1..]);
    }
  }

  /** The three DateTime validators (src/types.ts:36-49). */
  function DateTimeExpression(d: DateTimeSchema): string {
    match d
    case DateSchema => "z.date()"
    case UnionSchema => "z.union([z.date(), z.string().datetime()])"
    case TransformSchema => "z.date().transform((v) => v.toISOString()).pipe(z.string().datetime())"
  }

  /** Which DateTime mode produced an expression, if any. */
  function DateTimeSchemaOf(expr: string): Option<DateTimeSchema> {
    if expr == DateTimeExpression(DateSchema) then Some(DateSchema)
    else if expr == DateTimeExpression(UnionSchema) then Some(UnionSchema)
    else if expr == DateTimeExpression(TransformSchema) then Some(TransformSchema)
    else None
  }

  /** The `switch (field.type)` of a scalar field; unlisted types fall back to `z.unknown()`. */
  function ScalarExpression(typeName: string, d: DateTimeSchema): string {
    if typeName == "String" then "z.string()"
    else if typeName == "Int" then "z.number()"
    else if typeName == "BigInt" then "z.bigint()"
    else if typeName == "DateTime" then DateTimeExpression(d)
    else if typeName == "Float" then "z.number()"
    else if typeName == "Decimal" then "z.number()"
    else if typeName == "Json" then "jsonSchema"
    else if typeName == "Boolean" then "z.boolean()"
    else if typeName == "Bytes" then "z.unknown()"
    else "z.unknown()"
  }

  /** `getRelatedModelName`, whose default is `name.toString()`. */
  function RelatedNameOr(getRelatedModelName: Option<string -> string>): string -> string {
    match getRelatedModelName
    case Some(g) => g
    case None => (name: string) => name
  }

  /** The expression chosen from the field's kind and type, before any override. */
  function BaseExpression(f: Field, d: DateTimeSchema, getRelatedModelName: Option<string -> string>): (r: string)
    ensures f.kind == Enum ==> r == "z.nativeEnum(" + f.typeName + ")"
    ensures f.kind == Object && getRelatedModelName.Some? ==> r == getRelatedModelName.value(f.typeName)
    ensures f.kind == Object && getRelatedModelName.None? ==> r == f.typeName
    ensures f.kind == Unsupported ==> r == "z.unknown()"
  {
    match f.kind
    case Scalar => ScalarExpression(f.typeName, d)
    case Enum => "z.nativeEnum(" + f.typeName + ")"
    case Object => RelatedNameOr(getRelatedModelName)(f.typeName)
    case Unsupported => "z.unknown()"
  }

  /** `computeCustomSchema(doc) ?? zodType`, consulted only when the field has documentation. */
  function ApplyOverride(f: Field, base: string, docs: Docs): (r: string)
    ensures HasDocumentation(f) && docs.computeCustomSchema(f.documentation.value).Some? ==>
              r == docs.computeCustomSchema(f.documentation.value).value
    ensures !HasDocumentation(f) || docs.computeCustomSchema(f.documentation.value).None? ==> r == base
  {
    if HasDocumentation(f) then docs.computeCustomSchema(f.documentation.value).GetOr(base) else base
  }

  /** The documentation's modifier fragments; none without documentation. */
  function DocFragments(f: Field, docs: Docs): seq<string> {
    if HasDocumentation(f) then docs.computeModifiers(f.documentation.value) else []
  }

  predicate IsIntScalar(f: Field) {
    f.kind == Scalar && f.typeName == "Int"
  }

  /** `!field.isRequired && field.type !== 'Json'`: the type name alone decides, whatever the kind. */
  predicate NeedsNullability(f: Field) {
    !f.isRequired && f.typeName != "Json"
  }

  function NullabilityModifier(n: NullableType): (m: Modifier)
    ensures Stage(m) == 3
  {
    match n
    case Nullable => NullableMod
    case Nullish => NullishMod
  }

  /**
   * The modifiers pushed after the initial `''`, in the order the source
   * pushes them.
   */
  function ModifierList(f: Field, n: NullableType, docs: Docs): (r: seq<Modifier>)
    ensures StageOrdered(r)
    ensures IntCheck in r <==> IsIntScalar(f)
    ensures ArrayOf in r <==> f.isList
    ensures DocTexts(r) == DocFragments(f, docs)
    ensures NullableMod in r <==> NeedsNullability(f) && n == Nullable
    ensures NullishMod in r <==> NeedsNullability(f) && n == Nullish
    ensures FixedModifiersOnce(r)
  {
    var ints := IntPart(f);
    var lists := ListPart(f);
    var fromDocs := AsDocModifiers(DocFragments(f, docs));
    var nulls := NullabilityPart(f, n);
    DocTextsOfDocModifiers(DocFragments(f, docs));
    DocTextsAssembly(ints, lists, fromDocs, nulls);
    AssemblyShape(ints, lists, fromDocs, nulls);
    ints + lists + fromDocs + nulls
  }

  function IntPart(f: Field): (r: seq<Modifier>)
    ensures AtMostOne(r, IntCheck) && (r != [] <==> IsIntScalar(f))
  {
    if IsIntScalar(f) then [IntCheck] else []
  }

  function ListPart(f: Field): (r: seq<Modifier>)
    ensures AtMostOne(r, ArrayOf) && (r != [] <==> f.isList)
  {
    if f.isList then [ArrayOf] else []
  }

  function NullabilityPart(f: Field, n: NullableType): (r: seq<Modifier>)
    ensures AtMostOne(r, NullableMod) || AtMostOne(r, NullishMod)
    ensures r == [NullableMod] <==> NeedsNullability(f) && n == Nullable
    ensures r == [NullishMod] <==> NeedsNullability(f) && n == Nullish
  {
    if NeedsNullability(f) then [NullabilityModifier(n)] else []
  }

  predicate AtMostOne(xs: seq<Modifier>, m: Modifier) {
    xs == [] || xs == [m]
  }

  predicate AllDocModifiers(ms: seq<Modifier>) {
    forall i :: 0 <= i < |ms| ==> ms[i].DocModifier?
  }

  lemma DocTextsAssembly(ints: seq<Modifier>, lists: seq<Modifier>, fromDocs: seq<Modifier>, nulls: seq<Modifier>)
    requires AtMostOne(ints, IntCheck) && AtMostOne(lists, ArrayOf)
    requires AtMostOne(nulls, NullableMod) || AtMostOne(nulls, NullishMod)
    ensures DocTexts(ints + lists + fromDocs + nulls) == DocTexts(fromDocs)
  {
    assert ints + lists + fromDocs + nulls == ints + (lists + (fromDocs + nulls));
    DocTextsConcat(ints, lists + (fromDocs + nulls));
    DocTextsConcat(lists, fromDocs + nulls);
    DocTextsConcat(fromDocs, nulls);
    assert DocTexts(ints) == [] && DocTexts(lists) == [];
    assert DocTexts(nulls) == [];
  }

  /** Where each part of an assembled modifier list lands. */
  lemma AssemblyPositions(ints: seq<Modifier>, lists: seq<Modifier>, fromDocs: seq<Modifier>, nulls: seq<Modifier>)
    requires AtMostOne(ints, IntCheck) && AtMostOne(lists, ArrayOf) && AllDocModifiers(fromDocs)
    requires AtMostOne(nulls, NullableMod) || AtMostOne(nulls, NullishMod)
    ensures var r := ints + lists + fromDocs + nulls;
            var a := |ints|;
            var b := a + |lists|;
            var c := b + |fromDocs|;
            forall k :: 0 <= k < |r| ==>
              && (k < a ==> r[k] == IntCheck)
              && (a <= k < b ==> r[k] == ArrayOf)
              && (b <= k < c ==> r[k].DocModifier?)
              && (c <= k ==> r[k] == nulls[0] && k == c)
  {
    var r := ints + lists + fromDocs + nulls;
    var a := |ints|;
    var b := a + |lists|;
    var c := b + |fromDocs|;
    forall k | 0 <= k < |r|
      ensures k < a ==> r[k] == IntCheck
      ensures a <= k < b ==> r[k] == ArrayOf
      ensures b <= k < c ==> r[k].DocModifier?
      ensures c <= k ==> r[k] == nulls[0] && k == c
    {
      if k < a { assert r[k] == ints[k]; }
      else if k < b { assert r[k] == lists[k - a]; }
      else if k < c { assert r[k] == fromDocs[k - b]; }
      else { assert r[k] == nulls[k - c]; }
    }
  }

  lemma AssemblyShape(ints: seq<Modifier>, lists: seq<Modifier>, fromDocs: seq<Modifier>, nulls: seq<Modifier>)
    requires AtMostOne(ints, IntCheck) && AtMostOne(lists, ArrayOf) && AllDocModifiers(fromDocs)
    requires AtMostOne(nulls, NullableMod) || AtMostOne(nulls, NullishMod)
    ensures var r := ints + lists + fromDocs + nulls;
      && StageOrdered(r)
      && FixedModifiersOnce(r)
      && (IntCheck in r <==> ints != [])
      && (ArrayOf in r <==> lists != [])
      && (NullableMod in r <==> nulls == [NullableMod])
      && (NullishMod in r <==> nulls == [NullishMod])
  {
    var r := ints + lists + fromDocs + nulls;
    AssemblyPositions(ints, lists, fromDocs, nulls);
    if ints != [] { assert r[0] == IntCheck; }
    if lists != [] { assert r[|ints|] == ArrayOf; }
    if nulls != [] { assert r[|r| - 1] == nulls[0]; }
  }

  /** No modifier other than a documentation fragment shares its stage with a later one. */
  predicate FixedModifiersOnce(ms: seq<Modifier>) {
    forall i, j :: 0 <= i < j < |ms| && !ms[i].DocModifier? ==> Stage(ms[i]) != Stage(ms[j])
  }

  /** The expression and its modifier list before they are joined. */
  datatype ZodConstructor = ZodConstructor(expr: string, modifiers: seq<Modifier>)

  function Compile(f: Field, d: DateTimeSchema, n: NullableType,
                   getRelatedModelName: Option<string -> string>, docs: Docs): ZodConstructor
  {
    ZodConstructor(ApplyOverride(f, BaseExpression(f, d, getRelatedModelName), docs), ModifierList(f, n, docs))
  }

  /** `${zodType}${extraModifiers.join('.')}` with the list seeded by `''`. */
  function Render(c: ZodConstructor): string {
    c.expr + Join([""] + Texts(c.modifiers), ".")
  }

  /**
   * `getZodConstructor`: the rendered validator is the (possibly
   * overridden) expression followed by `.m` for each modifier, in order.
   */
  function GetZodConstructor(f: Field, d: DateTimeSchema, n: NullableType,
                             getRelatedModelName: Option<string -> string>, docs: Docs): (r: string)
    ensures var c := Compile(f, d, n, getRelatedModelName, docs);
            r == c.expr + Prefixed(Texts(c.modifiers), ".")
    ensures StartsWith(r, Compile(f, d, n, getRelatedModelName, docs).expr)
  {
    var c := Compile(f, d, n, getRelatedModelName, docs);
    JoinAfterEmpty(Texts(c.modifiers), ".");
    Render(c)
  }
}
