/**
 * The records the documentation API returns: projects, their user-defined
 * functions (UDFs, called "modules" in the page script) and the functions'
 * ordered parameters. A field that may be `undefined` in the JSON is an Option.
 */
module Api {

  datatype Option<T> = None | Some(value: T)

  /** One entry of `ordered_function_params`. */
  datatype Param = Param(name: string, isOptional: bool, dataType: string, description: string)

  /** One UDF of a project. */
  datatype Udf = Udf(name: string, moduleName: Option<string>, description: string, params: seq<Param>)

  /** One entry of the project list; `id` is the numeric project id. */
  datatype Project = Project(id: nat, moduleName: Option<string>)
}
