/**
 * Functions the generator calls but whose code is not part of this model:
 * `./docs`, `./util` and Node's `path`. Each is a function-valued field,
 * so every result below holds for every implementation of them.
 */
module Collaborators {
  import opened Wrappers
  import opened Dmmf
  import opened Configuration

  /** `./docs`: directives and JSDoc lines read from a field's documentation. */
  datatype Docs = Docs(
    computeCustomSchema: string -> Option<string>,
    computeModifiers: string -> seq<string>,
    getJSDocs: Option<string> -> seq<string>)

  /** The pair returned by `useModelNames(config)`. */
  datatype ModelNames = ModelNames(modelName: string -> string, relatedModelName: string -> string)

  /** `./util` apart from `writeArray`, which only formats. */
  datatype Util = Util(
    useModelNames: Config -> ModelNames,
    needsRelatedModel: (Model, Config) -> bool,
    dotSlash: string -> string)

  /** Node's `path` module. */
  datatype PathLib = PathLib(
    relative: (string, string) -> string,
    resolve: (string, string) -> string,
    dirname: string -> string)

  datatype Env = Env(docs: Docs, util: Util, path: PathLib)
}
