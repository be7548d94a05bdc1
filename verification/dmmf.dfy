/**
 * The slice of Prisma's data-model description (the DMMF) the generator
 * reads: models with ordered fields, and enums with ordered values.
 */
module Dmmf {
  import opened Wrappers
  import opened Strings

  /** A field's kind; `Object` is a relation to another model. */
  datatype FieldKind = Scalar | Enum | Object | Unsupported

  /**
   * One field. `typeName` is the scalar type tag (`String`, `Int`, ...),
   * the enum's name or the related model's name, according to `kind`.
   */
  datatype Field = Field(
    name: string,
    kind: FieldKind,
    typeName: string,
    isList: bool,
    isRequired: bool,
    documentation: Option<string>)

  datatype Model = Model(name: string, fields: seq<Field>)

  /** An enum value; `dbName` is the mapped database value, if any. */
  datatype EnumValue = EnumValue(name: string, dbName: Option<string>)

  datatype DatamodelEnum = DatamodelEnum(name: string, values: seq<EnumValue>)

  /** `if (field.documentation)`: present and non-empty. */
  predicate HasDocumentation(f: Field) {
    Truthy(f.documentation)
  }

  predicate IsRelation(f: Field) {
    f.kind == Object
  }

  predicate IsNotRelation(f: Field) {
    f.kind != Object
  }

  predicate IsEnum(f: Field) {
    f.kind == Enum
  }

  /** `model.fields.filter((f) => f.kind === 'object')`. */
  function RelationFields(m: Model): seq<Field> {
    Filter(m.fields, IsRelation)
  }

  /** `model.fields.filter((f) => f.kind !== 'object')`. */
  function NonRelationFields(m: Model): seq<Field> {
    Filter(m.fields, IsNotRelation)
  }

  /** `model.fields.filter((f) => f.kind === 'enum')`. */
  function EnumFields(m: Model): seq<Field> {
    Filter(m.fields, IsEnum)
  }

  /**
   * `model.fields.some((f) => f.type === t)`. The comparison is on the type
   * name alone, whatever the field's kind.
   */
  predicate HasFieldOfType(m: Model, t: string) {
    exists f :: f in m.fields && f.typeName == t
  }

  /** The field names of `fs`, in order. */
  function Names(fs: seq<Field>): (r: seq<string>)
    ensures |r| == |fs|
    ensures forall i :: 0 <= i < |fs| ==> r[i] == fs[i].name
  {
    if |fs| == 0 then [] else [fs[0].name] + Names(fs[1..])
  }

  /** The type names of `fs`, in order. */
  function TypeNames(fs: seq<Field>): (r: seq<string>)
    ensures |r| == |fs|
    ensures forall i :: 0 <= i < |fs| ==> r[i] == fs[i].typeName
  {
    if |fs| == 0 then [] else [fs[0].typeName] + TypeNames(fs[1..])
  }
}
