/**
 * What a generated file is made of, as the structures handed to the
 * source-file writer (imports, helper blocks, interfaces, constants,
 * re-exports), rather than as formatted text.
 */
module Declarations {
  import opened Wrappers

  /** `import { a, b } from 'm'`, or `import * as ns from 'm'` when `namespaceImport` is set. */
  datatype ImportDecl = ImportDecl(
    namedImports: seq<string>,
    namespaceImport: Option<string>,
    moduleSpecifier: string,
    isTypeOnly: bool)

  /** One `name: expr,` entry of an object literal, preceded by its JSDoc lines. */
  datatype Property = Property(jsDocs: seq<string>, name: string, expr: string)

  /** One interface property, `name?: type` when optional. */
  datatype InterfaceProp = InterfaceProp(name: string, optional: bool, typeText: string)

  /** One `key: 'value'` entry of an enum constant. */
  datatype Entry = Entry(key: string, value: string)

  /** The initializer of an exported constant. */
  datatype Initializer =
    | ZodObject(shape: seq<Property>)                 // z.object({ ... })
    | Lazy(base: string, extension: seq<Property>)    // z.lazy(() => base.extend({ ... }))
    | AsConst(entries: seq<Entry>)                    // { ... } as const

  /** A top-level statement of a generated file; everything but the helpers is exported. */
  datatype Decl =
    | JsonHelper(lines: seq<string>)
    | DecimalHelper(lines: seq<string>)
    | Interface(name: string, heritage: seq<string>, properties: seq<InterfaceProp>)
    | CommentBlock(lines: seq<string>)
    | Const(name: string, typeAnnotation: Option<string>, init: Initializer)

  /** `export * from 'm'`. */
  datatype ExportDecl = ExportDecl(moduleSpecifier: string)

  /** One model's file: its imports and, in order, its statements. */
  datatype ModelFile = ModelFile(imports: seq<ImportDecl>, statements: seq<Decl>)

  function PropertyNames(ps: seq<Property>): (r: seq<string>)
    ensures |r| == |ps|
    ensures forall i :: 0 <= i < |ps| ==> r[i] == ps[i].name
  {
    if |ps| == 0 then [] else [ps[0].name] + PropertyNames(ps[1..])
  }

  function JsonHelperCount(ds: seq<Decl>): nat {
    if |ds| == 0 then 0 else (if ds[0].JsonHelper? then 1 else 0) + JsonHelperCount(ds[1..])
  }

  predicate IsLazyConst(d: Decl) {
    d.Const? && d.init.Lazy?
  }

  function LazyCount(ds: seq<Decl>): nat {
    if |ds| == 0 then 0 else (if IsLazyConst(ds[0]) then 1 else 0) + LazyCount(ds[1..])
  }

  lemma {:induction false} CountsConcat(a: seq<Decl>, b: seq<Decl>)
    ensures JsonHelperCount(a + b) == JsonHelperCount(a) + JsonHelperCount(b)
    ensures LazyCount(a + b) == LazyCount(a) + LazyCount(b)
  {
    if |a| == 0 {
      assert a + b == b;
    } else {
      assert (a + b)[0] == a[0];
      assert (a + b)[1..] == a[1..] + b;
      CountsConcat(a[1..], b);
    }
  }

  lemma CountsSingle(d: Decl)
    ensures JsonHelperCount([d]) == (if d.JsonHelper? then 1 else 0)
    ensures LazyCount([d]) == (if IsLazyConst(d) then 1 else 0)
  {
    assert [d][1..] == [];
  }
}
