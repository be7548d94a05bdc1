/**
 * The generator's resolved options (the domains of `configSchema` in
 * src/config.ts) and the three paths the host hands over. Parsing and
 * defaulting of the options are not modelled.
 */
module Configuration {
  import opened Wrappers

  /** `relationModel`: `true`, `false` or `'default'`. */
  datatype RelationModel = RelationTrue | RelationFalse | RelationDefault

  datatype ModelCase = PascalCase | CamelCase

  datatype FileNameCase = FilePascalCase | FileCamelCase | FileSnakeCase

  datatype IndentType = Tab | Space

  /** TypeScript's `SemicolonPreference`. */
  datatype SemicolonPreference = SemicolonIgnore | SemicolonInsert | SemicolonRemove

  /** `dateTimeSchema`: how a DateTime field is validated. */
  datatype DateTimeSchema = DateSchema | UnionSchema | TransformSchema

  /** `nullableType`: which modifier an optional field receives. */
  datatype NullableType = Nullable | Nullish

  datatype Config = Config(
    relationModel: RelationModel,
    modelSuffix: string,
    modelCase: ModelCase,
    useDecimalJs: bool,
    imports: Option<string>,
    prismaJsonNullability: bool,
    fileNameCase: FileNameCase,
    enumFile: Option<string>,
    indentSize: int,
    indentType: IndentType,
    singleQuote: bool,
    semicolon: SemicolonPreference,
    trailingCommas: bool,
    ignoreRelationTypes: Option<bool>,
    dateTimeSchema: DateTimeSchema,
    nullableType: NullableType)

  /** `if (config.ignoreRelationTypes)`: an absent flag is off. */
  predicate IgnoreRelationTypes(c: Config) {
    c.ignoreRelationTypes == Some(true)
  }

  datatype PrismaOptions = PrismaOptions(schemaPath: string, outputPath: string, clientPath: string)
}
