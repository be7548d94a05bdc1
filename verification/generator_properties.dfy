/**
 * Properties of the per-model planner that relate several of its
 * functions, or relate one of them to an independent reading of its
 * output: the interface property types can be parsed back, the base
 * schema ignores relations, related schemas are always lazy and point
 * back at the base schema, self-relations need no import, and the barrel
 * and enum modules list exactly what they were given.
 */
module GeneratorProperties {
  import opened Wrappers
  import opened Strings
  import opened Dmmf
  import opened Configuration
  import opened Collaborators
  import opened Types
  import opened Declarations
  import opened Generator
  import TypesProperties

  // ------------------------------------------------ interface property types

  /** What an interface property type says about its relation field. */
  datatype TypeParts = TypeParts(target: string, isList: bool, nullable: bool)

  /** Reads `Complete{T}{Input|Output}`, an optional `[]` and an optional ` | null` back. */
  function ParsePropertyType(s: string, d: Direction): Option<TypeParts> {
    var nullable := EndsWith(s, " | null");
    var s1 := if nullable then s[..|s| - 7] else s;
    var isList := EndsWith(s1, "[]");
    var s2 := if isList then s1[..|s1| - 2] else s1;
    var suffix := DirectionSuffix(d);
    if |s2| >= 8 + |suffix| && StartsWith(s2, "Complete") && EndsWith(s2, suffix) then
      Some(TypeParts(s2[8..|s2| - |suffix|], isList, nullable))
    else None
  }

  /** Both direction suffixes end in `t`. */
  lemma CompleteNameShape(t: string, d: Direction)
    ensures var n := CompleteName(t, d);
            |n| >= 8 + |DirectionSuffix(d)| && n[|n| - 1] == 't'
            && StartsWith(n, "Complete") && EndsWith(n, DirectionSuffix(d))
            && n[8..|n| - |DirectionSuffix(d)|] == t
  {
    var n := CompleteName(t, d);
    ConcatAffixes("Complete", t + DirectionSuffix(d));
    assert n == "Complete" + t + DirectionSuffix(d);
    ConcatAffixes("Complete" + t, DirectionSuffix(d));
    assert n[8..|n| - |DirectionSuffix(d)|] == t;
  }

  /** A string ending in `t` or `]` does not end in ` | null`, and one ending in `t` does not end in `[]`. */
  lemma NoSuffixAfter(s: string, last: char)
    requires |s| > 0 && s[|s| - 1] == last
    ensures last != 'l' ==> !EndsWith(s, " | null")
    ensures last != ']' ==> !EndsWith(s, "[]")
  {
    if EndsWith(s, " | null") { CharFromEnd(s, " | null", 1); }
    if EndsWith(s, "[]") { CharFromEnd(s, "[]", 1); }
  }

  lemma ListPartFacts(t: string, d: Direction, isList: bool)
    ensures var s1 := CompleteName(t, d) + (if isList then "[]" else "");
            |s1| > 0 && s1[|s1| - 1] != 'l'
            && (EndsWith(s1, "[]") <==> isList)
            && (isList ==> s1[..|s1| - 2] == CompleteName(t, d))
  {
    var n := CompleteName(t, d);
    CompleteNameShape(t, d);
    if isList {
      ConcatAffixes(n, "[]");
    } else {
      NoSuffixAfter(n, 't');
    }
  }

  /**
   * The type written for a relation field determines the field's target,
   * list flag and optionality: parsing it back recovers all three.
   */
  lemma PropertyTypeRoundTrip(f: Field, d: Direction)
    ensures ParsePropertyType(PropertyType(f, d), d) == Some(TypeParts(f.typeName, f.isList, !f.isRequired))
  {
    var s1 := CompleteName(f.typeName, d) + (if f.isList then "[]" else "");
    ListPartFacts(f.typeName, d, f.isList);
    NullStrip(s1, !f.isRequired);
    ParseStripped(f.typeName, d, f.isList, s1);
  }

  /** ` | null` is recognised exactly when it was appended, and stripping it gives back the rest. */
  lemma NullStrip(s1: string, nullable: bool)
    requires |s1| > 0 && s1[|s1| - 1] != 'l'
    ensures var s := s1 + (if nullable then " | null" else "");
            (EndsWith(s, " | null") <==> nullable)
            && (if EndsWith(s, " | null") then s[..|s| - 7] else s) == s1
  {
    var s := s1 + (if nullable then " | null" else "");
    if nullable {
      ConcatAffixes(s1, " | null");
    } else {
      NoSuffixAfter(s1, s1[|s1| - 1]);
    }
  }

  /** Once the ` | null` is gone, the rest parses as the target and the list flag. */
  lemma ParseStripped(t: string, d: Direction, isList: bool, s1: string)
    requires s1 == CompleteName(t, d) + (if isList then "[]" else "")
    ensures var s2 := if EndsWith(s1, "[]") then s1[..|s1| - 2] else s1;
            var suffix := DirectionSuffix(d);
            && EndsWith(s1, "[]") == isList
            && |s2| >= 8 + |suffix| && StartsWith(s2, "Complete") && EndsWith(s2, suffix)
            && s2[8..|s2| - |suffix|] == t
  {
    ListPartFacts(t, d, isList);
    CompleteNameShape(t, d);
  }

  /** The Input and Output interfaces list the same properties, differing only in the direction of each type. */
  lemma CompanionInterfacesAgree(m: Model, c: Config, env: Env)
    ensures var i, o := CompleteInterface(m, c, env, Input), CompleteInterface(m, c, env, Output);
            |i.properties| == |o.properties|
            && forall k :: 0 <= k < |i.properties| ==>
                 i.properties[k].name == o.properties[k].name
                 && i.properties[k].optional == o.properties[k].optional
                 && ParsePropertyType(i.properties[k].typeText, Input) == ParsePropertyType(o.properties[k].typeText, Output)
  {
    var i, o := CompleteInterface(m, c, env, Input), CompleteInterface(m, c, env, Output);
    forall k | 0 <= k < |i.properties|
      ensures ParsePropertyType(i.properties[k].typeText, Input) == ParsePropertyType(o.properties[k].typeText, Output)
    {
      PropertyTypeRoundTrip(RelationFields(m)[k], Input);
      PropertyTypeRoundTrip(RelationFields(m)[k], Output);
    }
  }

  // -------------------------------------------------------------- base schema

  /** Only relation fields consult the related-name function. */
  lemma NonRelationIgnoresRelatedName(f: Field, d: DateTimeSchema, n: NullableType,
                                      g: Option<string -> string>, docs: Docs)
    requires f.kind != Object
    ensures GetZodConstructor(f, d, n, g, docs) == GetZodConstructor(f, d, n, None, docs)
  {
    assert BaseExpression(f, d, g) == BaseExpression(f, d, None);
  }

  lemma FilterNone(xs: seq<Field>, p: Field -> bool)
    requires forall x :: x in xs ==> !p(x)
    ensures Filter(xs, p) == []
  {
    var r := Filter(xs, p);
    assert forall x :: x !in r;
  }

  /** A model's base schema is the one of the same model stripped of its relation fields. */
  lemma BaseSchemaIgnoresRelations(m: Model, c: Config, env: Env)
    ensures BaseSchema(m, c, env) == BaseSchema(Model(m.name, NonRelationFields(m)), c, env)
  {
    FilterIdempotent(m.fields, IsNotRelation);
  }

  /** Relation fields inserted anywhere among a model's fields leave its base schema unchanged. */
  lemma InsertedRelationsKeepBaseSchema(name: string, before: seq<Field>, relations: seq<Field>, after: seq<Field>,
                                        c: Config, env: Env)
    requires forall f :: f in relations ==> f.kind == Object
    ensures BaseSchema(Model(name, before + relations + after), c, env) == BaseSchema(Model(name, before + after), c, env)
  {
    FilterConcat(before + relations, after, IsNotRelation);
    FilterConcat(before, relations, IsNotRelation);
    FilterNone(relations, IsNotRelation);
    FilterConcat(before, after, IsNotRelation);
    assert Filter(before, IsNotRelation) + [] == Filter(before, IsNotRelation);
  }

  // ----------------------------------------------------------- cycle safety

  /**
   * The only typed constant of a model file is the related schema; it is
   * always `z.lazy(...)` and extends a base schema declared earlier in the
   * same file.
   */
  lemma LazyRelatedSchema(m: Model, c: Config, env: Env)
    ensures var s := ModelStatements(m, c, env);
            forall i :: 0 <= i < |s| && s[i].Const? && s[i].typeAnnotation.Some? ==>
              IsLazyConst(s[i])
              && exists j :: 0 <= j < i && s[j].Const? && s[j].init.ZodObject? && s[j].name == s[i].init.base
  {
    var helpers := TypeSpecificSchemas(m, c);
    var base := BaseSchema(m, c, env);
    var related := if env.util.needsRelatedModel(m, c) then RelatedSchemaForModel(m, c, env) else [];
    HelperBlocksOnly(m, c);
    if env.util.needsRelatedModel(m, c) {
      RelatedTypedConstIsLazy(m, c, env);
    }
    LazyAfterBase(helpers, base, related);
  }

  /** The type-specific helpers are helper blocks and nothing else. */
  lemma HelperBlocksOnly(m: Model, c: Config)
    ensures forall d :: d in TypeSpecificSchemas(m, c) ==> d.JsonHelper? || d.DecimalHelper?
  {
    var r := TypeSpecificSchemas(m, c);
    forall d | d in r ensures d.JsonHelper? || d.DecimalHelper? {
      var i :| 0 <= i < |r| && r[i] == d;
    }
  }

  /** Among the related artifacts only the related schema is a typed constant, and it extends the base schema. */
  lemma RelatedTypedConstIsLazy(m: Model, c: Config, env: Env)
    ensures var r := RelatedSchemaForModel(m, c, env);
            forall i :: 0 <= i < |r| && r[i].Const? && r[i].typeAnnotation.Some? ==>
              IsLazyConst(r[i]) && r[i].init.base == BaseSchema(m, c, env).name
  {
    var r := RelatedSchemaForModel(m, c, env);
    assert r == [r[0], r[1], r[2], r[3]];
    LastOfFourIsLazy(r[0], r[1], r[2], r[3], BaseSchema(m, c, env).name);
  }

  /** Of four declarations, only the last being a constant, a lazy one over `base`, it is the only typed constant. */
  lemma LastOfFourIsLazy(a: Decl, b: Decl, d: Decl, e: Decl, base: string)
    requires !a.Const? && !b.Const? && !d.Const? && IsLazyConst(e) && e.init.base == base
    ensures var r := [a, b, d, e];
            forall i :: 0 <= i < |r| && r[i].Const? && r[i].typeAnnotation.Some? ==>
              IsLazyConst(r[i]) && r[i].init.base == base
  {
  }

  lemma LazyAfterBase(helpers: seq<Decl>, base: Decl, related: seq<Decl>)
    requires forall d :: d in helpers ==> !d.Const?
    requires base.Const? && base.typeAnnotation.None? && base.init.ZodObject?
    requires forall i :: 0 <= i < |related| && related[i].Const? && related[i].typeAnnotation.Some? ==>
               IsLazyConst(related[i]) && related[i].init.base == base.name
    ensures var s := helpers + [base] + related;
            forall i :: 0 <= i < |s| && s[i].Const? && s[i].typeAnnotation.Some? ==>
              IsLazyConst(s[i])
              && exists j :: 0 <= j < i && s[j].Const? && s[j].init.ZodObject? && s[j].name == s[i].init.base
  {
    var s := helpers + [base] + related;
    var h := |helpers|;
    forall i | 0 <= i < |s| && s[i].Const? && s[i].typeAnnotation.Some?
      ensures IsLazyConst(s[i])
      ensures exists j :: 0 <= j < i && s[j].Const? && s[j].init.ZodObject? && s[j].name == s[i].init.base
    {
      if h <= i {
        assert s[i] == related[i - h - 1];
        assert s[h] == base;
      }
    }
  }

  // -------------------------------------------------------- relation import

  /**
   * The relation import is written exactly when relations are not switched
   * off and some relation field points at another model.
   */
  lemma RelationImportCondition(m: Model, c: Config)
    ensures RelationImportNeeded(m, c) <==>
              c.relationModel != RelationFalse && exists f :: IsForeignRelation(m, f)
  {
    if exists f :: IsForeignRelation(m, f) {
      var f :| IsForeignRelation(m, f);
      assert f in RelationFields(m);
      assert f in ForeignRelationFields(m);
    }
    if |ForeignRelationFields(m)| > 0 {
      var f := ForeignRelationFields(m)[0];
      assert f in ForeignRelationFields(m);
      assert f in RelationFields(m);
      assert IsForeignRelation(m, f);
    }
  }

  /** A model whose relations all point at itself imports nothing from the barrel. */
  lemma SelfRelationsNeedNoImport(m: Model, c: Config, options: PrismaOptions, env: Env)
    requires forall f :: f in m.fields && f.kind == Object ==> f.typeName == m.name
    ensures |ImportsForModel(m, c, options, env)|
            == 1 + Count(Truthy(c.imports)) + Count(DecimalNeeded(m, c)) + Count(|EnumFields(m)| > 0)
  {
    RelationImportCondition(m, c);
  }

  /**
   * An undocumented self-relation entry of the related schema refers to
   * the related schema itself, which the lazy wrapper makes legal.
   */
  lemma SelfRelationEntry(m: Model, c: Config, env: Env, k: nat)
    requires k < |RelationFields(m)|
    requires RelationFields(m)[k].typeName == m.name && m.name != "Json"
    requires !HasDocumentation(RelationFields(m)[k])
    ensures var r := RelatedSchema(m, c, env);
            k < |r.init.extension| && StartsWith(r.init.extension[k].expr, r.name)
  {
    var f := RelationFields(m)[k];
    assert f in RelationFields(m);
    var related := env.util.useModelNames(c).relatedModelName;
    RelatedSchemaEntries(m, c, env);
    TypesProperties.RelationFieldExpression(f, c.dateTimeSchema, c.nullableType, related, env.docs);
    StartsWithOfThree(related(m.name), if f.isList then ".array()" else "",
                      if f.isRequired then "" else if c.nullableType == Nullable then ".nullable()" else ".nullish()");
  }

  lemma StartsWithOfThree(a: string, b: string, d: string)
    ensures StartsWith(a + b + d, a)
  {
    assert (a + b + d)[..|a|] == a;
  }

  // -------------------------------------------------------------- enum file

  /** The value of `key` in an object literal: the last entry with that key wins, as in JavaScript. */
  function LookupValue(es: seq<Entry>, key: string): Option<string> {
    if |es| == 0 then None
    else if es[|es| - 1].key == key then Some(es[|es| - 1].value)
    else LookupValue(es[..|es| - 1], key)
  }

  /** No two values of the enum share a name. */
  predicate DistinctNames(vs: seq<EnumValue>) {
    forall i, j :: 0 <= i < j < |vs| ==> vs[i].name != vs[j].name
  }

  /**
   * With distinct value names, looking a value's name up in the emitted
   * constant yields its database name, or its own name when it has none.
   */
  lemma {:induction false} EnumLookup(vs: seq<EnumValue>, i: nat)
    requires i < |vs| && DistinctNames(vs)
    ensures LookupValue(EnumEntries(vs), vs[i].name) == Some(OrElse(vs[i].dbName, vs[i].name))
    decreases |vs|
  {
    var last := |vs| - 1;
    if i != last {
      EnumPrefix(vs, last);
      EnumLookup(vs[..last], i);
      SkipLast(EnumEntries(vs), vs[i].name);
    }
  }

  /** A prefix of the values yields the prefix of the entries and keeps its names distinct. */
  lemma EnumPrefix(vs: seq<EnumValue>, k: nat)
    requires k <= |vs| && DistinctNames(vs)
    ensures EnumEntries(vs[..k]) == EnumEntries(vs)[..k]
    ensures DistinctNames(vs[..k])
  {
    var short, long := EnumEntries(vs[..k]), EnumEntries(vs);
    assert |short| == k;
    forall j | 0 <= j < k ensures short[j] == long[j] {
      assert vs[..k][j] == vs[j];
    }
  }

  /** A lookup that misses the last entry continues with the ones before it. */
  lemma SkipLast(es: seq<Entry>, key: string)
    requires |es| > 0 && es[|es| - 1].key != key
    ensures LookupValue(es, key) == LookupValue(es[..|es| - 1], key)
  {
  }

  // ------------------------------------------------------------ barrel file

  function StripDotSlash(s: string): string {
    if StartsWith(s, "./") then s[2..] else s
  }

  /** The modules a barrel re-exports, read back from its specifiers. */
  function ExportedModules(es: seq<ExportDecl>): (r: seq<string>)
    ensures |r| == |es| && forall i :: 0 <= i < |es| ==> r[i] == StripDotSlash(es[i].moduleSpecifier)
  {
    if |es| == 0 then [] else [StripDotSlash(es[0].moduleSpecifier)] + ExportedModules(es[1..])
  }

  function ModelNames(models: seq<Model>): (r: seq<string>)
    ensures |r| == |models| && forall i :: 0 <= i < |models| ==> r[i] == models[i].name
  {
    if |models| == 0 then [] else [models[0].name] + ModelNames(models[1..])
  }

  lemma StripAdded(x: string)
    ensures StripDotSlash("./" + x) == x
  {
    ConcatAffixes("./", x);
    assert ("./" + x)[2..] == x;
  }

  /** The barrel re-exports every model in order, then the enum module when one is configured. */
  lemma BarrelRoundTrip(models: seq<Model>, enumFile: Option<string>)
    ensures ExportedModules(GenerateBarrelFile(models, enumFile))
            == ModelNames(models) + (if Truthy(enumFile) then [enumFile.value] else [])
  {
    var r := GenerateBarrelFile(models, enumFile);
    var expected := ModelNames(models) + (if Truthy(enumFile) then [enumFile.value] else []);
    forall i | 0 <= i < |r| ensures ExportedModules(r)[i] == expected[i] {
      if i < |models| {
        StripAdded(models[i].name);
      } else {
        StripAdded(enumFile.value);
      }
    }
  }
}
