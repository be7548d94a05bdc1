/**
 * Properties of the field compiler: what the contracts of `Types` add up to
 * for whole fields, and a reference description of the modifier list that
 * is shown to determine it completely.
 */
module TypesProperties {
  import opened Wrappers
  import opened Strings
  import opened Dmmf
  import opened Configuration
  import opened Collaborators
  import opened Types

  /** The scalar mapping as a table; a type missing from it gets `z.unknown()`. */
  function ScalarValidators(d: DateTimeSchema): map<string, string> {
    map[
      "String" := "z.string()",
      "Int" := "z.number()",
      "BigInt" := "z.bigint()",
      "DateTime" := DateTimeExpression(d),
      "Float" := "z.number()",
      "Decimal" := "z.number()",
      "Json" := "jsonSchema",
      "Boolean" := "z.boolean()",
      "Bytes" := "z.unknown()"
    ]
  }

  /** The scalar switch agrees with the table on every type the table lists. */
  lemma ScalarExpressionMatchesTable(t: string, d: DateTimeSchema)
    requires t in ScalarValidators(d)
    ensures ScalarExpression(t, d) == ScalarValidators(d)[t]
  {
  }

  /** The scalar switch is total: a type the table does not list gets `z.unknown()`. */
  lemma UnlistedScalarIsUnknown(t: string, d: DateTimeSchema)
    requires t !in ScalarValidators(d)
    ensures ScalarExpression(t, d) == "z.unknown()"
  {
    TableListsSwitchCases(d);
    SwitchFallsThrough(t, d, ScalarValidators(d));
  }

  /** Every type the switch names has an entry in the table. */
  lemma TableListsSwitchCases(d: DateTimeSchema)
    ensures var m := ScalarValidators(d);
            && "String" in m && "Int" in m && "BigInt" in m && "DateTime" in m
            && "Float" in m && "Decimal" in m && "Json" in m && "Boolean" in m
  {
  }

  /** A type missing from any table that lists the switch's named cases gets `z.unknown()`. */
  lemma SwitchFallsThrough(t: string, d: DateTimeSchema, m: map<string, string>)
    requires t !in m
    requires "String" in m && "Int" in m && "BigInt" in m && "DateTime" in m
    requires "Float" in m && "Decimal" in m && "Json" in m && "Boolean" in m
    ensures ScalarExpression(t, d) == "z.unknown()"
  {
  }

  /** Each DateTime mode yields its own expression, so the mode can be read back from it. */
  lemma DateTimeExpressionRoundTrip(d: DateTimeSchema)
    ensures DateTimeSchemaOf(DateTimeExpression(d)) == Some(d)
    ensures forall e :: e != d ==> DateTimeExpression(e) != DateTimeExpression(d)
  {
    assert |DateTimeExpression(DateSchema)| == 8;
    assert |DateTimeExpression(UnionSchema)| == 42;
    assert |DateTimeExpression(TransformSchema)| == 70;
  }

  /** The single modifier at `m`'s stage, if `m` occurs in `ms`. */
  function Present(ms: seq<Modifier>, m: Modifier): seq<Modifier> {
    if m in ms then [m] else []
  }

  function NullPart(ms: seq<Modifier>): seq<Modifier> {
    if NullableMod in ms then [NullableMod] else if NullishMod in ms then [NullishMod] else []
  }

  /** A stage-ordered list with no repeated fixed modifier is int, array, documentation fragments, nullability. */
  lemma {:induction false} CanonicalForm(ms: seq<Modifier>)
    requires StageOrdered(ms) && FixedModifiersOnce(ms)
    ensures ms == Canonical(ms)
  {
    if |ms| > 0 {
      var x := ms[0];
      var rest := ms[1..];
      assert ms == [x] + rest;
      assert StageOrdered(rest) && FixedModifiersOnce(rest) by {
        forall i, j | 0 <= i < j < |rest|
          ensures Stage(rest[i]) <= Stage(rest[j])
          ensures !rest[i].DocModifier? ==> Stage(rest[i]) != Stage(rest[j])
        {
          assert rest[i] == ms[i + 1] && rest[j] == ms[j + 1];
        }
      }
      CanonicalForm(rest);
      CanonicalStep(x, rest);
    }
  }

  /** The four parts `CanonicalForm` splits a list into. */
  function Canonical(ms: seq<Modifier>): seq<Modifier> {
    Present(ms, IntCheck) + Present(ms, ArrayOf) + AsDocModifiers(DocTexts(ms)) + NullPart(ms)
  }

  /** One step of `CanonicalForm`: putting the least-stage modifier in front of a canonical list. */
  lemma CanonicalStep(x: Modifier, rest: seq<Modifier>)
    requires StageOrdered([x] + rest) && FixedModifiersOnce([x] + rest)
    requires rest == Canonical(rest)
    ensures [x] + rest == Canonical([x] + rest)
  {
    HeadStageBound(x, rest);
    if x.DocModifier? {
      CanonicalStepDoc(x.text, rest);
    } else {
      CanonicalStepFixed(x, rest);
    }
  }

  /** The head of an ordered list is at or below every later stage, strictly so unless it is a fragment. */
  lemma HeadStageBound(x: Modifier, rest: seq<Modifier>)
    requires StageOrdered([x] + rest) && FixedModifiersOnce([x] + rest)
    ensures forall k :: 0 <= k < |rest| ==> Stage(x) <= Stage(rest[k])
    ensures !x.DocModifier? ==> forall k :: 0 <= k < |rest| ==> Stage(x) < Stage(rest[k])
  {
    var ms := [x] + rest;
    forall k | 0 <= k < |rest| ensures Stage(x) <= Stage(rest[k]) && (!x.DocModifier? ==> Stage(x) < Stage(rest[k])) {
      assert ms[0] == x && ms[k + 1] == rest[k];
      assert Stage(ms[0]) <= Stage(ms[k + 1]);
      assert !ms[0].DocModifier? ==> Stage(ms[0]) != Stage(ms[k + 1]);
    }
  }

  lemma CanonicalStepDoc(t: string, rest: seq<Modifier>)
    requires forall k :: 0 <= k < |rest| ==> 2 <= Stage(rest[k])
    requires rest == Canonical(rest)
    ensures [DocModifier(t)] + rest == Canonical([DocModifier(t)] + rest)
  {
    var ms := [DocModifier(t)] + rest;
    DocConsParts(t, rest);
    assert AsDocModifiers(DocTexts(ms)) == [DocModifier(t)] + AsDocModifiers(DocTexts(rest));
  }

  /** Prepending a fragment to a list of stage two and above changes only its fragment part. */
  lemma DocConsParts(t: string, rest: seq<Modifier>)
    requires forall k :: 0 <= k < |rest| ==> 2 <= Stage(rest[k])
    ensures var ms := [DocModifier(t)] + rest;
            && DocTexts(ms) == [t] + DocTexts(rest)
            && NullPart(ms) == NullPart(rest)
            && Present(ms, IntCheck) == [] == Present(rest, IntCheck)
            && Present(ms, ArrayOf) == [] == Present(rest, ArrayOf)
  {
    var ms := [DocModifier(t)] + rest;
    assert IntCheck !in rest && ArrayOf !in rest;
    assert ms[1..] == rest;
  }

  lemma CanonicalStepFixed(x: Modifier, rest: seq<Modifier>)
    requires !x.DocModifier?
    requires forall k :: 0 <= k < |rest| ==> Stage(x) < Stage(rest[k])
    requires rest == Canonical(rest)
    ensures [x] + rest == Canonical([x] + rest)
  {
    if x == IntCheck {
      CanonicalStepInt(rest);
    } else if x == ArrayOf {
      CanonicalStepArray(rest);
    } else {
      CanonicalStepNull(x, rest);
    }
  }

  lemma CanonicalStepNull(x: Modifier, rest: seq<Modifier>)
    requires x.NullableMod? || x.NullishMod?
    requires forall k :: 0 <= k < |rest| ==> Stage(x) < Stage(rest[k])
    ensures [x] + rest == Canonical([x] + rest)
  {
    assert Stage(x) == 3;
    assert |rest| == 0 || Stage(rest[0]) <= 3;
    assert [x] + rest == [x];
    assert DocTexts([x]) == [] by { assert [x][1..] == []; }
    assert Present([x], IntCheck) == [] && Present([x], ArrayOf) == [] && NullPart([x]) == [x];
  }

  lemma CanonicalStepInt(rest: seq<Modifier>)
    requires IntCheck !in rest
    requires rest == Canonical(rest)
    ensures [IntCheck] + rest == Canonical([IntCheck] + rest)
  {
    var ms := [IntCheck] + rest;
    assert ms[1..] == rest;
    assert DocTexts(ms) == DocTexts(rest);
    assert Present(ms, IntCheck) == [IntCheck];
    assert Present(ms, ArrayOf) == Present(rest, ArrayOf);
    assert NullPart(ms) == NullPart(rest);
  }

  lemma CanonicalStepArray(rest: seq<Modifier>)
    requires IntCheck !in rest && ArrayOf !in rest
    requires rest == Canonical(rest)
    ensures [ArrayOf] + rest == Canonical([ArrayOf] + rest)
  {
    var ms := [ArrayOf] + rest;
    assert ms[1..] == rest;
    assert DocTexts(ms) == DocTexts(rest);
    assert Present(ms, IntCheck) == [];
    assert Present(ms, ArrayOf) == [ArrayOf];
    assert NullPart(ms) == NullPart(rest);
  }

  /**
   * The contract of `ModifierList` is complete: any list with the stated
   * order, membership, documentation fragments and multiplicities is the
   * one the compiler builds.
   */
  lemma ModifierListDeterminedByContract(ms: seq<Modifier>, f: Field, n: NullableType, docs: Docs)
    requires StageOrdered(ms)
    requires IntCheck in ms <==> IsIntScalar(f)
    requires ArrayOf in ms <==> f.isList
    requires DocTexts(ms) == DocFragments(f, docs)
    requires NullableMod in ms <==> NeedsNullability(f) && n == Nullable
    requires NullishMod in ms <==> NeedsNullability(f) && n == Nullish
    requires FixedModifiersOnce(ms)
    ensures ms == ModifierList(f, n, docs)
  {
    var r := ModifierList(f, n, docs);
    CanonicalForm(ms);
    CanonicalForm(r);
    assert Present(ms, IntCheck) == Present(r, IntCheck);
    assert Present(ms, ArrayOf) == Present(r, ArrayOf);
    assert NullPart(ms) == NullPart(r);
  }

  /** Rendering a modifier list as a `.a.b` chain. */
  function Chain(ms: seq<Modifier>): string {
    Prefixed(Texts(ms), ".")
  }

  lemma Associate(a: seq<Modifier>, b: seq<Modifier>, c: seq<Modifier>, d: seq<Modifier>)
    ensures a + b + c + d == a + (b + c + d)
  {
  }

  lemma ModifierListParts(f: Field, n: NullableType, docs: Docs)
    ensures ModifierList(f, n, docs) ==
              IntPart(f) + ListPart(f) + AsDocModifiers(DocFragments(f, docs)) + NullabilityPart(f, n)
  {
  }

  lemma TextsConcat(a: seq<Modifier>, b: seq<Modifier>)
    ensures Texts(a + b) == Texts(a) + Texts(b)
  {
  }

  lemma ChainConcat(a: seq<Modifier>, b: seq<Modifier>)
    ensures Chain(a + b) == Chain(a) + Chain(b)
  {
    TextsConcat(a, b);
    PrefixedConcat(Texts(a), Texts(b), ".");
  }

  lemma ChainSingle(m: Modifier)
    ensures Chain([m]) == "." + ModifierText(m)
  {
    var t := Texts([m]);
    assert t == [ModifierText(m)];
    assert t[1..] == [];
    assert Prefixed(t, ".") == "." + t[0] + Prefixed(t[1..], ".");
  }

  function NullabilityText(f: Field, n: NullableType): string {
    if !NeedsNullability(f) then "" else if n == Nullable then ".nullable()" else ".nullish()"
  }

  lemma PartChains(f: Field, n: NullableType)
    ensures Chain(IntPart(f)) == (if IsIntScalar(f) then ".int()" else "")
    ensures Chain(ListPart(f)) == (if f.isList then ".array()" else "")
    ensures Chain(NullabilityPart(f, n)) == NullabilityText(f, n)
  {
    ChainSingle(IntCheck);
    ChainSingle(ArrayOf);
    ChainSingle(NullableMod);
    ChainSingle(NullishMod);
  }

  lemma UndocumentedModifiers(f: Field, n: NullableType, docs: Docs)
    requires !HasDocumentation(f)
    ensures ModifierList(f, n, docs) == IntPart(f) + ListPart(f) + NullabilityPart(f, n)
  {
    ModifierListParts(f, n, docs);
    assert AsDocModifiers(DocFragments(f, docs)) == [];
  }

  /** An undocumented field's modifiers: `int()` for Int scalars, `array()` for lists, then nullability. */
  lemma UndocumentedChain(f: Field, n: NullableType, docs: Docs)
    requires !HasDocumentation(f)
    ensures Chain(ModifierList(f, n, docs)) ==
              (if IsIntScalar(f) then ".int()" else "")
              + (if f.isList then ".array()" else "")
              + NullabilityText(f, n)
  {
    UndocumentedModifiers(f, n, docs);
    ChainConcat(IntPart(f) + ListPart(f), NullabilityPart(f, n));
    ChainConcat(IntPart(f), ListPart(f));
    PartChains(f, n);
  }

  /**
   * A required, non-list, undocumented field that is not an Int scalar
   * renders as its base expression alone.
   */
  lemma PlainFieldIsBase(f: Field, d: DateTimeSchema, n: NullableType,
                         g: Option<string -> string>, docs: Docs)
    requires f.isRequired && !f.isList && !HasDocumentation(f) && !IsIntScalar(f)
    ensures GetZodConstructor(f, d, n, g, docs) == BaseExpression(f, d, g)
  {
    UndocumentedChain(f, n, docs);
  }

  /**
   * For any list field that takes a nullability modifier: `.array()` comes
   * right after the expression and its `.int()`, the documentation's
   * fragments follow, and the nullability modifier is last. Swapping the
   * two fixed modifiers gives a different string.
   */
  lemma ListWrapBeforeNullability(f: Field, d: DateTimeSchema, n: NullableType,
                                  g: Option<string -> string>, docs: Docs)
    requires f.isList && NeedsNullability(f)
    ensures var pre := Compile(f, d, n, g, docs).expr + (if IsIntScalar(f) then ".int()" else "");
            var fragments := Chain(AsDocModifiers(DocFragments(f, docs)));
            && GetZodConstructor(f, d, n, g, docs) == pre + ".array()" + fragments + NullabilityText(f, n)
            && GetZodConstructor(f, d, n, g, docs) != pre + NullabilityText(f, n) + fragments + ".array()"
  {
    var expr := Compile(f, d, n, g, docs).expr;
    var ints, lists, fromDocs, nulls := IntPart(f), ListPart(f), AsDocModifiers(DocFragments(f, docs)), NullabilityPart(f, n);
    ModifierListParts(f, n, docs);
    PartChains(f, n);
    ChainOfParts(ints, lists, fromDocs, nulls);
    PrefixAssociates(expr, Chain(ints), Chain(lists), Chain(fromDocs), Chain(nulls));
    SwapDiffers(expr + Chain(ints), Chain(fromDocs), NullabilityText(f, n));
  }

  /** The chain of four consecutive parts is the parts' chains, in order. */
  lemma ChainOfParts(ints: seq<Modifier>, lists: seq<Modifier>, fromDocs: seq<Modifier>, nulls: seq<Modifier>)
    ensures Chain(ints + lists + fromDocs + nulls) == Chain(ints) + Chain(lists) + Chain(fromDocs) + Chain(nulls)
  {
    ChainConcat(ints + lists + fromDocs, nulls);
    ChainConcat(ints + lists, fromDocs);
    ChainConcat(ints, lists);
  }

  /** An undocumented field renders as its base expression followed by the chain `UndocumentedChain` describes. */
  lemma UndocumentedRender(f: Field, d: DateTimeSchema, n: NullableType,
                           g: Option<string -> string>, docs: Docs)
    requires !HasDocumentation(f)
    ensures GetZodConstructor(f, d, n, g, docs) ==
              BaseExpression(f, d, g)
              + (if IsIntScalar(f) then ".int()" else "")
              + (if f.isList then ".array()" else "")
              + NullabilityText(f, n)
  {
    var b := BaseExpression(f, d, g);
    var i, l, nt := (if IsIntScalar(f) then ".int()" else ""), (if f.isList then ".array()" else ""), NullabilityText(f, n);
    assert Compile(f, d, n, g, docs).expr == b;
    UndocumentedChain(f, n, docs);
    StringAssociate(b, i, l, nt);
  }

  lemma EmptyConcat(b: string, l: string, nt: string)
    ensures b + "" + l + nt == b + l + nt
  {
  }

  lemma PrefixAssociates(e: string, a: string, b: string, c: string, d: string)
    ensures e + (a + b + c + d) == e + a + b + c + d
  {
  }

  lemma StringAssociate(b: string, i: string, l: string, nt: string)
    ensures b + (i + l + nt) == b + i + l + nt
  {
  }

  /** `b.array()<mid>.nullable()` and `b.nullable()<mid>.array()` (or `nullish`) are different strings. */
  lemma SwapDiffers(b: string, mid: string, nt: string)
    requires nt == ".nullable()" || nt == ".nullish()"
    ensures b + ".array()" + mid + nt != b + nt + mid + ".array()"
  {
    var good := b + ".array()" + mid + nt;
    var bad := b + nt + mid + ".array()";
    assert good[|b| + 1] == 'a';
    assert bad[|b| + 1] == 'n';
  }

  /** An undocumented, required, non-list enum field renders as exactly `z.nativeEnum(T)`. */
  lemma EnumFieldExpression(f: Field, d: DateTimeSchema, n: NullableType,
                            g: Option<string -> string>, docs: Docs)
    requires f.kind == Enum && f.isRequired && !f.isList && !HasDocumentation(f)
    ensures GetZodConstructor(f, d, n, g, docs) == "z.nativeEnum(" + f.typeName + ")"
  {
    PlainFieldIsBase(f, d, n, g, docs);
  }

  /**
   * Without a related-name function, an undocumented, required, non-list
   * relation field renders as its target's type name.
   */
  lemma DefaultRelatedNameIsTypeName(f: Field, d: DateTimeSchema, n: NullableType, docs: Docs)
    requires f.kind == Object && f.isRequired && !f.isList && !HasDocumentation(f)
    ensures GetZodConstructor(f, d, n, None, docs) == f.typeName
  {
    PlainFieldIsBase(f, d, n, None, docs);
  }

  /**
   * The documentation readers are consulted only for documented fields: with
   * a missing or empty comment, any two readers give the same validator.
   */
  lemma UndocumentedIgnoresDocs(f: Field, d: DateTimeSchema, n: NullableType,
                                g: Option<string -> string>, docs1: Docs, docs2: Docs)
    requires !HasDocumentation(f)
    ensures GetZodConstructor(f, d, n, g, docs1) == GetZodConstructor(f, d, n, g, docs2)
  {
    UndocumentedRender(f, d, n, g, docs1);
    UndocumentedRender(f, d, n, g, docs2);
  }

  /**
   * `??` keeps an empty custom schema: the base expression is dropped and
   * the validator is the modifier chain alone.
   */
  lemma EmptyOverrideKept(f: Field, d: DateTimeSchema, n: NullableType,
                          g: Option<string -> string>, docs: Docs)
    requires HasDocumentation(f) && docs.computeCustomSchema(f.documentation.value) == Some("")
    ensures GetZodConstructor(f, d, n, g, docs) == Chain(ModifierList(f, n, docs))
  {
    OverrideRender(f, d, n, g, docs, "");
    assert "" + Chain(ModifierList(f, n, docs)) == Chain(ModifierList(f, n, docs));
  }

  /** Both the expression and the modifiers of a `Json` field are independent of `isRequired`. */
  lemma JsonCompileIgnoresRequiredness(f: Field, d: DateTimeSchema, n: NullableType,
                                       g: Option<string -> string>, docs: Docs)
    requires f.typeName == "Json"
    ensures Compile(f, d, n, g, docs) == Compile(f.(isRequired := true), d, n, g, docs)
  {
    var f' := f.(isRequired := true);
    assert NullabilityPart(f, n) == [] == NullabilityPart(f', n);
    RequirednessOnlyNullability(f, d, n, g, docs);
  }

  /** `isRequired` reaches the compiled field only through its nullability modifier. */
  lemma RequirednessOnlyNullability(f: Field, d: DateTimeSchema, n: NullableType,
                                    g: Option<string -> string>, docs: Docs)
    requires NullabilityPart(f, n) == NullabilityPart(f.(isRequired := true), n)
    ensures Compile(f, d, n, g, docs) == Compile(f.(isRequired := true), d, n, g, docs)
  {
    var f' := f.(isRequired := true);
    assert IntPart(f) == IntPart(f') && ListPart(f) == ListPart(f');
    assert DocFragments(f, docs) == DocFragments(f', docs);
    ModifierListParts(f, n, docs);
    ModifierListParts(f', n, docs);
    assert BaseExpression(f, d, g) == BaseExpression(f', d, g);
  }

  /**
   * A field whose type is named `Json` renders the same whether or not it
   * is required; an undocumented, non-list Json scalar is the bare
   * `jsonSchema` identifier.
   */
  lemma JsonIgnoresRequiredness(f: Field, d: DateTimeSchema, n: NullableType,
                                g: Option<string -> string>, docs: Docs)
    requires f.typeName == "Json"
    ensures GetZodConstructor(f, d, n, g, docs) == GetZodConstructor(f.(isRequired := true), d, n, g, docs)
    ensures f.kind == Scalar && !f.isList && !HasDocumentation(f) ==>
              GetZodConstructor(f, d, n, g, docs) == "jsonSchema"
  {
    var f' := f.(isRequired := true);
    JsonCompileIgnoresRequiredness(f, d, n, g, docs);
    if f.kind == Scalar && !f.isList && !HasDocumentation(f) {
      PlainFieldIsBase(f', d, n, g, docs);
    }
  }

  /**
   * A documentation override replaces the base expression and nothing
   * else: the modifiers, `int()` included, are appended to it unchanged.
   */
  lemma OverrideKeepsModifiers(f: Field, d: DateTimeSchema, n: NullableType,
                               g: Option<string -> string>, docs: Docs, custom: string)
    requires HasDocumentation(f) && docs.computeCustomSchema(f.documentation.value) == Some(custom)
    ensures GetZodConstructor(f, d, n, g, docs) == custom + Chain(ModifierList(f, n, docs))
    ensures IsIntScalar(f) ==> StartsWith(GetZodConstructor(f, d, n, g, docs), custom + ".int()")
  {
    OverrideRender(f, d, n, g, docs, custom);
    if IsIntScalar(f) {
      var tail := IntCheckLeads(f, n, docs);
      PrefixOfConcat(custom + ".int()", Chain(tail));
    }
  }

  lemma OverrideRender(f: Field, d: DateTimeSchema, n: NullableType,
                       g: Option<string -> string>, docs: Docs, custom: string)
    requires HasDocumentation(f) && docs.computeCustomSchema(f.documentation.value) == Some(custom)
    ensures GetZodConstructor(f, d, n, g, docs) == custom + Chain(ModifierList(f, n, docs))
  {
    assert Compile(f, d, n, g, docs).expr == custom;
  }

  lemma PrefixOfConcat(head: string, tail: string)
    ensures StartsWith(head + tail, head)
  {
    assert (head + tail)[..|head|] == head;
  }

  /** For an Int scalar the rendered chain starts with `.int()`, whatever the documentation adds. */
  lemma IntCheckLeads(f: Field, n: NullableType, docs: Docs) returns (tail: seq<Modifier>)
    requires IsIntScalar(f)
    ensures Chain(ModifierList(f, n, docs)) == ".int()" + Chain(tail)
  {
    ModifierListParts(f, n, docs);
    var lists, fromDocs, nulls := ListPart(f), AsDocModifiers(DocFragments(f, docs)), NullabilityPart(f, n);
    tail := lists + fromDocs + nulls;
    assert IntPart(f) == [IntCheck];
    ChainAfterIntCheck(IntPart(f), lists, fromDocs, nulls);
  }

  lemma ChainAfterIntCheck(ints: seq<Modifier>, lists: seq<Modifier>, fromDocs: seq<Modifier>, nulls: seq<Modifier>)
    requires ints == [IntCheck]
    ensures Chain(ints + lists + fromDocs + nulls) == ".int()" + Chain(lists + fromDocs + nulls)
  {
    Associate(ints, lists, fromDocs, nulls);
    ChainConcat(ints, lists + fromDocs + nulls);
    ChainSingle(IntCheck);
  }

  /**
   * An undocumented relation field inside a related schema renders as the
   * target's related-schema name, then `.array()` for a list, then the
   * nullability modifier when optional.
   */
  lemma RelationFieldExpression(f: Field, d: DateTimeSchema, n: NullableType,
                                related: string -> string, docs: Docs)
    requires f.kind == Object && f.typeName != "Json" && !HasDocumentation(f)
    ensures GetZodConstructor(f, d, n, Some(related), docs) ==
              related(f.typeName)
              + (if f.isList then ".array()" else "")
              + (if f.isRequired then "" else if n == Nullable then ".nullable()" else ".nullish()")
  {
    UndocumentedChain(f, n, docs);
  }
}
