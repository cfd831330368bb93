/** The serverless configuration the plugin reads: each function's
    `lambdaAtEdge` declaration and the service-level `custom.lambdaAtEdge`. */
module PluginConfig {
  import opened Wrappers
  import opened Js

  /** One `lambdaAtEdge` entry of a function. */
  datatype AssociationSpec = AssociationSpec(
    distribution: string,
    eventType: string,
    pathPattern: Option<string>,
    includeBody: JsValue,
    injectEnv: JsValue)

  /** A function's `lambdaAtEdge` value: one object or an array of them. */
  datatype EdgeConfig = Single(spec: AssociationSpec) | Several(specs: seq<AssociationSpec>)

  /** A function definition, with the logical id of its Lambda resource and the
      name of its version output as the framework's naming service gives them. */
  datatype FunctionDef = FunctionDef(
    name: string,
    logicalId: string,
    versionOutputName: string,
    lambdaAtEdge: Option<EdgeConfig>)

  /** `custom.lambdaAtEdge`. */
  datatype EdgeCustom = EdgeCustom(retain: JsValue)

  /** `custom`. */
  datatype CustomConfig = CustomConfig(lambdaAtEdge: Option<EdgeCustom>)

  /** The entries of a function's declaration, in order, whatever its shape. */
  function EdgeEntries(f: FunctionDef): seq<AssociationSpec> {
    match f.lambdaAtEdge
    case None => []
    case Some(Single(spec)) => [spec]
    case Some(Several(specs)) => specs
  }

  /** `custom.lambdaAtEdge.retain === true`: only the boolean `true` counts. */
  predicate RetainFunctions(custom: Option<CustomConfig>) {
    custom.Some? && custom.value.lambdaAtEdge.Some? && custom.value.lambdaAtEdge.value.retain == Bool(true)
  }

  /** Only the boolean `true` retains: a truthy string or number does not, nor
      does a missing `custom` block. */
  lemma RetainOnlyExactTrue(v: JsValue)
    ensures RetainFunctions(Some(CustomConfig(Some(EdgeCustom(v))))) <==> v == Bool(true)
    ensures !RetainFunctions(None) && !RetainFunctions(Some(CustomConfig(None)))
  {
  }

  /** The functions whose Lambda resources must exist: those with at least one entry. */
  predicate FunctionsResolvable<R>(functions: seq<FunctionDef>, resources: map<string, R>) {
    forall i :: 0 <= i < |functions| && EdgeEntries(functions[i]) != [] ==> functions[i].logicalId in resources
  }
}
