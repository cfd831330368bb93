# Lambda@Edge plugin for the Serverless framework — a Dafny model

The plugin prepares a Serverless service whose functions run as Lambda@Edge
functions attached to CloudFront distributions. When the framework has
compiled the CloudFormation template, the plugin's `_modifyTemplate` hook runs
two steps on that template, in place:

- **Role patch** (`_modifyExecutionRole`). If the template has the Lambda
  execution role `IamRoleLambdaExecution`, every trust statement whose service
  list names `lambda.amazonaws.com` but not `edgelambda.amazonaws.com` gains
  the edge principal. One statement granting four CloudWatch Logs actions on
  `arn:aws:logs:*:*:*` is then appended to the role's first policy. A missing
  role, or a run in which no statement changed, is reported as a warning.
- **Associations** (`_modifyLambdaFunctionsAndDistributions`,
  `_handleSingleFunctionAssociation`). The plugin visits each function with a
  `lambdaAtEdge` declaration. It takes one object or an array of them, and
  handles each entry in turn:
  1. It runs four checks, in this order: the event type is one of the four
     valid ones; the distribution resource exists; the resource has the
     CloudFront distribution type; the function's version output has a
     non-empty `Value.Ref`.
  2. It removes the function's `Environment.Variables`, and the whole
     `Environment` when nothing else is left in it.
  3. When `custom.lambdaAtEdge.retain` is exactly `true`, it sets the
     function's `DeletionPolicy` to `Retain`.
  4. It picks the cache behaviour: the default one, or the first with the
     given non-empty path pattern.
  5. It appends an association entry to that behaviour. A list that is not an
     array is first replaced by `[]`.

  The first failure ends the run. The error names the bad value, and the
  changes already made stay in the template.

Separately, the plugin can inject environment variables into a function's
code, because Lambda@Edge functions cannot have an `Environment`.
`_getFunctionsToInjectVarsInto` picks the functions that ask for it with a
truthy `injectEnv`, if the provider runtime mentions `nodejs`.
`_envVarsToWriteableFormat` builds the JavaScript that is prepended to their
handler file.

The model has these modules:

- `Wrappers`: `Option` and `Result`.
- `Seqs`: regrouping facts about sequence concatenation, used by the proofs.
- `Js`: JavaScript truthiness, `String.prototype.includes` and `Array.prototype.join`,
  plus a line splitter used only to read the generated code line by line (the
  plugin itself never splits text).
- `CloudFormation`: the template entities the plugin reads and writes.
- `PluginConfig`: the function declarations and the `custom` block.
- `ExecutionRole`: the role patch, as functions on the resources.
- `Association`: the checks, the per-entry step, and the folds over entries and
  functions, as functions on the resources.
- `EnvInjection`: the selection filter and the code generator.
- `Plugin`: the compiled template as a class with `resources` and `outputs`
  fields. Its methods make the source's changes step by step, and each is
  proved to end in exactly the state the corresponding function describes.

Each entry is checked just before it is applied. So an error in a later
entry, or in a later function, leaves the earlier additions in the template
(`FunctionsErrorSticks`, `EntriesErrorSticks`). Within one entry, a missing
cache behaviour is detected only after the function was stripped and retained
(`AssociateOneStripsFunction`).

## Model

| member | source | states |
|---|---|---|
| ExecutionRole.PatchService | src/index.js:177-183 | a service list that has the Lambda principal and lacks the edge principal gains the edge principal once at the end; every other service, including a single service name, is unchanged; afterwards the list holds the edge principal iff it held it or the Lambda principal before |
| ExecutionRole.PatchTrust | src/index.js:176-184 | the patched statements keep their number, and statement i is statement i with its service patched |
| ExecutionRole.PatchTrustIdempotent | src/index.js:176-184 | patching the trust statements a second time changes nothing, so no duplicate principal appears |
| ExecutionRole.UpdatedIffChanged | src/index.js:169-184 | `assumeRoleUpdated` ends true exactly when the patch changed some statement |
| ExecutionRole.PatchTrustStatements | src/index.js:169-184 | the loop over the statements yields the patched statements and the `assumeRoleUpdated` flag |
| ExecutionRole.AddLogsPermission | src/index.js:195-204 | the first policy gains exactly the logs statement at the end of its statements; every other policy is unchanged |
| ExecutionRole.PatchRole | src/index.js:176-204 | each trust statement has its service patched (the edge principal is added where Lambda is trusted and the edge principal is missing); the first policy gains exactly the logs statement at the end; the policy name, the other policies, the type and the deletion policy are kept |
| ExecutionRole.PatchExecutionRole | src/index.js:171-204 | without the role the resources are unchanged; otherwise the role's trust statements are patched one by one and its first policy gains exactly the logs statement, no other resource changes, and the same logical ids remain |
| ExecutionRole.PatchRoleTwice | src/index.js:195-204 | a second run leaves the trust statements as the first run left them, but the logs statement is appended twice |
| Association.VersionRef | src/index.js:251-253 | the version is found exactly when the output exists and its `Value.Ref` is a truthy string, and it is that `Ref` |
| Association.Message | src/index.js:239-284 | the five error texts; `InvalidEventTypeMessage` and `MessageNamesSubject` state that each names its subject |
| Association.Validate | src/index.js:239-255 | each of the four errors happens exactly when its check is the first to fail, in source order; success yields the non-empty version reference |
| Association.InvalidEventTypeMessage | src/index.js:239-241 | the event-type error text contains the rejected value and the valid event types joined with ", " |
| Association.MessageNamesSubject | src/index.js:239-284 | every error text contains the value or resource name it is about |
| Association.StripEnvironment | src/index.js:257-271 | afterwards no variables remain; the type and the deletion policy are kept; the `Environment` is dropped exactly when it had no other keys; a resource without variables is unchanged |
| Association.Retained | src/index.js:273-275 | the deletion policy becomes `Retain` exactly when retain is set, and nothing else changes |
| Association.FindBehavior | src/index.js:280 | the result is the index of the first behaviour with exactly that path pattern, or none when no behaviour has it |
| Association.SelectTarget | src/index.js:279-287 | the default behaviour is selected exactly when the pattern is missing or empty; a missing behaviour is reported exactly when no behaviour has the non-empty pattern; otherwise the `CacheBehaviors` entry selected has that pattern and no earlier entry has it |
| Association.NewAssociation | src/index.js:295-299 | the entry has the event type, a `Ref` to the version, and `includeBody` when it is truthy, else `false` |
| Association.AttachAt | src/index.js:289-299 | the selected behaviour's list becomes an array whose entries are the old entries plus the new one; every other behaviour and every path pattern is unchanged |
| Association.AssociateOne | src/index.js:225-299 | one entry: a failed check changes nothing and yields its error; otherwise the template is only extended, only the function and the distribution change, the function becomes exactly its stripped and retained form, and a missing behaviour leaves the distribution as it was |
| Association.AssociateOneStripsFunction | src/index.js:257-275 | once the checks pass, the function has no variables and is retained when asked, even when the behaviour is then not found; no other resource's policy or variables change |
| Association.AssociateOneAppends | src/index.js:277-299 | after the checks, the step fails exactly when the behaviour is not found; otherwise the new entry is appended to the selected behaviour and no other behaviour changes |
| Association.AssociateEntries | src/index.js:217-220 | the entries of one function, applied in order, keep the template's logical ids and well-formedness |
| Association.EntriesKeepShape | src/index.js:217-220 | a function's entries only extend the template; only that function's deletion policy may change, and no resource gains variables |
| Association.AssociateFunctions | src/index.js:211-223 | all declared functions, in order, keep the template's logical ids and well-formedness |
| Association.FunctionsKeepShape | src/index.js:211-223 | a whole run only extends the template; deletion policies change only on those functions' resources, and no resource gains variables |
| Association.EntriesErrorSticks | src/index.js:217-218 | once an entry fails, the later entries of that function are not applied |
| Association.FunctionsErrorSticks | src/index.js:212-222 | once a function fails, the later functions are not processed, and the changes made so far remain |
| Association.EntriesStripFunction | src/index.js:257-275 | after the entries of a function all succeed, it has no variables and is retained when asked |
| Association.ProcessedFunctionsStripped | src/index.js:257-275 | after a run without errors, every function with a declaration has no variables and is retained when asked |
| Association.NewAssociations | src/index.js:295-299 | one new entry per spec, in the order of the specs |
| Association.EntriesAppendedInOrder | src/index.js:295-299 | entries aimed at the default behaviour of one distribution are appended there in declaration order, after the entries already present |
| PluginConfig.EdgeEntries | src/index.js:217-220 | one object or an array of them, as the entries in order; `SingleActsAsOneElementList` states that one object is handled as a one-element array |
| PluginConfig.RetainFunctions | src/index.js:236 | `custom.lambdaAtEdge.retain === true`; `RetainOnlyExactTrue` states that only the boolean `true` retains |
| PluginConfig.RetainOnlyExactTrue | src/index.js:236 | retain holds exactly when the flag is the boolean `true`, and never without a `custom` block |
| EnvInjection.SingleActsAsOneElementList | src/index.js:47-53 | one `lambdaAtEdge` object and a one-element array yield the same entries and the same injection request |
| EnvInjection.WantsInjection | src/index.js:42-53 | a truthy `injectEnv` on the object, or on some element of the array; `FunctionsToInjectVarsInto` states the selection built on it |
| EnvInjection.RuntimeSupportsInjection | src/index.js:55 | the runtime, `unknown` when absent, includes `nodejs`; `NoNodeRuntimeSelectsNothing` and `Js.IncludesIffOccurs` state its meaning |
| EnvInjection.FunctionsToInjectVarsInto | src/index.js:38-66 | a function is selected iff its declaration, or some element of it, has a truthy `injectEnv` and the runtime (`unknown` when absent) mentions `nodejs` |
| EnvInjection.SelectionKeepsOrder | src/index.js:39-65 | selection is a filter that distributes over concatenation, so it keeps the declaration order |
| EnvInjection.NoNodeRuntimeSelectsNothing | src/index.js:55-60 | without a runtime, or with one that does not mention `nodejs`, no function is selected |
| EnvInjection.Assignments | src/index.js:106-110 | one assignment `process.env['name'] = value;` per variable, in order |
| EnvInjection.EnvVarsToWriteableFormat | src/index.js:105-116 | the code starts with the prelude and ends with a line break; `GeneratedCodeLines` and `NoVariablesCode` state its whole text |
| EnvInjection.GeneratedCodeLines | src/index.js:105-116 | for at least one variable, with no line break in any name or value: read line by line, the code is the two prelude declarations, one assignment per variable in order, then a final line break |
| EnvInjection.NoVariablesCode | src/index.js:105-116 | with no variables the code is the prelude followed by one empty line |
| Js.IncludesIffOccurs | src/index.js:55 | `includes` holds exactly when the text occurs at some position |
| Js.SplitJoinedLines | src/index.js:106-112 | break-free lines joined with `\n`, plus a final `\n`, split back into those lines and one empty piece |
| Plugin.CompiledTemplate.ModifyExecutionRole | src/index.js:168-209 | the resources become `PatchExecutionRole` of the old ones; the outcome is role-not-found, or patched with the `assumeRoleUpdated` flag of the old trust statements |
| Plugin.CompiledTemplate.HandleSingleFunctionAssociation | src/index.js:225-307 | the in-place checks, strip, retain, lookup and append leave the template and the error exactly as `AssociateOne` describes |
| Plugin.CompiledTemplate.HandleFunctionAssociations | src/index.js:214-221 | the loop over one function's entries ends as `AssociateEntries` describes, stopping at the first error |
| Plugin.CompiledTemplate.ModifyLambdaFunctionsAndDistributions | src/index.js:211-223 | the loop over the functions ends as `AssociateFunctions` describes, stopping at the first error |
| Plugin.CompiledTemplate.ModifyTemplate | src/index.js:161-166 | the role patch runs first and reports role-not-found or the `assumeRoleUpdated` flag; then the associations run on the patched template |

## Left out

- `_injectEnvVars` and `_modifyFunctionPackageContents`: they read and write zip archives on disk. Only the choice of functions and the generated code are modelled.
- `_getEnvForFunc`: it reads `provider.environment` from the framework. The variables are a parameter of `EnvVarsToWriteableFormat`.
- `init`, the hook table and `_configureSchema`: these are framework wiring and schema registration, with no template logic.
- `cli.log` output: logging is I/O. The role warnings are modelled as `RoleOutcome.Warned`. The per-entry messages, the variable-removal messages and the runtime warning of the injection filter are not modelled.
- The naming-service calls `getLambdaLogicalId` and `getLambdaVersionOutputLogicalId` belong to the framework. Their results are given as fields of `FunctionDef`.
- Object key order: `_.pairs` and `_.object` over the function map become a sequence in declaration order. The filter returns that selected sequence rather than an object.
- Aliasing: the source pushes onto the very `Service` array and association array found in the template. The model replaces values in the `resources` map, so arrays shared between two places in a template are not modelled.
- An existing function resource is a precondition. A missing one makes the source fail with a JavaScript `TypeError` before any check runs.
- Crash cases of the source are also preconditions rather than modelled:
  - the role without `Properties.Policies[0]`;
  - a distribution without a `DistributionConfig`. `DistributionsWellFormed` demands one of every resource with the distribution type, not only of the distributions the entries target. A template with an untargeted distribution that lacks one runs in the source but is outside the model;
  - a `DistributionConfig` without `DefaultCacheBehavior`. The source crashes when an entry has no path pattern; the model always has a default behaviour;
  - a template without `Outputs`. The source throws a `TypeError` while reading the output, before the event-type check; the model has no absent-outputs case and runs the checks;
  - an `AssumeRolePolicyDocument.Statement` given as one object rather than an array. `_.each` walks the object's values, and reading `Principal.Service` of a string value throws; the model takes the statements as a sequence;
  - a trust statement without a `Principal`;
  - an output without a `Value` object.
- A role without `Properties.AssumeRolePolicyDocument`, or a first policy without `PolicyDocument.Statement`, makes the source throw a `TypeError`. The model's role always has trust statements and its policies always have statements, so it patches and appends instead.
- EnvVarsToWriteableFormat: names and values are strings. The source joins them with `+`, so a number, a boolean or an object such as `{Ref: ...}` appears in its JavaScript string form (`[object Object]` for an object); that conversion is not modelled.
- `JsValue` numbers are integers: a fractional or `NaN` `injectEnv` or `includeBody` is not modelled.
- Non-string values are not modelled: an `eventType` that is not a string, a path pattern that is a templated reference object, and service entries in a form other than absent, one string or an array of strings.
- A template without `Resources` is modelled as one whose resource map lacks the role.
