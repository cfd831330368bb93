/** Attaching Lambda@Edge functions to CloudFront cache behaviours
    (`_handleSingleFunctionAssociation`, `_modifyLambdaFunctionsAndDistributions`),
    as functions of the template's resources. The class in module Plugin runs
    the same steps in place and is proved equal to these functions. */
module Association {
  import opened Wrappers
  import opened Js
  import opened CloudFormation
  import opened PluginConfig
  import opened Seqs

  const ValidEventTypes: seq<string> := ["viewer-request", "origin-request", "viewer-response", "origin-response"]

  /** The errors the plugin throws, in the order it checks for them. */
  datatype AssociationError =
    | InvalidEventType(eventType: string)
    | DistributionNotFound(distribution: string)
    | NotADistribution(distribution: string)
    | VersionOutputNotFound(outputName: string)
    | CacheBehaviorNotFound(distribution: string, pathPattern: string)

  /** The text of the thrown `Error`. */
  function Message(e: AssociationError): string {
    match e
    case InvalidEventType(t) =>
      "\"" + t + "\" is not a valid event type, must be one of: " + Join(ValidEventTypes, ", ")
    case DistributionNotFound(d) =>
      "Could not find resource with logical name \"" + d + "\""
    case NotADistribution(d) =>
      "Resource with logical name \"" + d + "\" is not type " + DistributionType
    case VersionOutputNotFound(o) =>
      "Could not find output by name of \"" + o + "\" or value from it to use version ARN"
    case CacheBehaviorNotFound(d, p) =>
      "Could not find cache behavior in \"" + d + "\" with path pattern \"" + p + "\""
  }

  /** The name or value an error is about. */
  function Subject(e: AssociationError): string {
    match e
    case InvalidEventType(t) => t
    case DistributionNotFound(d) => d
    case NotADistribution(d) => d
    case VersionOutputNotFound(o) => o
    case CacheBehaviorNotFound(_, p) => p
  }

  /** The event-type message names the bad value and lists the allowed ones,
      joined with ", ". */
  lemma InvalidEventTypeMessage(t: string)
    ensures Includes(Message(InvalidEventType(t)), t)
    ensures Includes(Message(InvalidEventType(t)), Join(ValidEventTypes, ", "))
  {
    var list := Join(ValidEventTypes, ", ");
    var tail := "\" is not a valid event type, must be one of: ";
    assert Message(InvalidEventType(t)) == "\"" + t + (tail + list);
    IncludesMiddle("\"", t, tail + list);
    assert Message(InvalidEventType(t)) == "\"" + t + tail + list + "";
    IncludesMiddle("\"" + t + tail, list, "");
  }

  /** Every message names the value or resource it is about. */
  lemma MessageNamesSubject(e: AssociationError)
    ensures Includes(Message(e), Subject(e))
  {
    match e
    case InvalidEventType(t) =>
      InvalidEventTypeMessage(t);
    case DistributionNotFound(d) =>
      IncludesMiddle("Could not find resource with logical name \"", d, "\"");
    case NotADistribution(d) =>
      var tail := "\" is not type " + DistributionType;
      assert Message(e) == "Resource with logical name \"" + d + tail;
      IncludesMiddle("Resource with logical name \"", d, tail);
    case VersionOutputNotFound(o) =>
      IncludesMiddle("Could not find output by name of \"", o, "\" or value from it to use version ARN");
    case CacheBehaviorNotFound(d, p) =>
      var head := "Could not find cache behavior in \"" + d + "\" with path pattern \"";
      assert Message(e) == head + p + "\"";
      IncludesMiddle(head, p, "\"");
  }

  /** `output.Value.Ref` of the version output, when the output exists and its
      `Ref` is a non-empty (truthy) string. */
  function VersionRef(outputs: Outputs, name: string): (r: Option<string>)
    ensures r.Some? <==>
      name in outputs && outputs[name].valueRef.Some? && Truthy(Str(outputs[name].valueRef.value))
    ensures r.Some? ==> outputs[name].valueRef == r
  {
    if name in outputs && outputs[name].valueRef.Some? && outputs[name].valueRef.value != "" then
      Some(outputs[name].valueRef.value)
    else None
  }

  /** The four checks made before the template is touched, in source order;
      success yields the logical id of the function version. */
  function Validate(resources: Resources, outputs: Outputs, f: FunctionDef, spec: AssociationSpec)
    : (r: Result<string, AssociationError>)
    ensures r == Failure(InvalidEventType(spec.eventType)) <==> spec.eventType !in ValidEventTypes
    ensures r == Failure(DistributionNotFound(spec.distribution)) <==>
      spec.eventType in ValidEventTypes && spec.distribution !in resources
    ensures r == Failure(NotADistribution(spec.distribution)) <==>
      spec.eventType in ValidEventTypes && spec.distribution in resources &&
      resources[spec.distribution].resourceType != DistributionType
    ensures r == Failure(VersionOutputNotFound(f.versionOutputName)) <==>
      spec.eventType in ValidEventTypes && spec.distribution in resources &&
      resources[spec.distribution].resourceType == DistributionType &&
      VersionRef(outputs, f.versionOutputName).None?
    ensures r.Success? <==>
      spec.eventType in ValidEventTypes && spec.distribution in resources &&
      resources[spec.distribution].resourceType == DistributionType &&
      VersionRef(outputs, f.versionOutputName).Some?
    ensures r.Success? ==> Some(r.value) == VersionRef(outputs, f.versionOutputName) && r.value != ""
    ensures r.Failure? ==> !r.error.CacheBehaviorNotFound?
  {
    if spec.eventType !in ValidEventTypes then Failure(InvalidEventType(spec.eventType))
    else if spec.distribution !in resources then Failure(DistributionNotFound(spec.distribution))
    else if resources[spec.distribution].resourceType != DistributionType then
      Failure(NotADistribution(spec.distribution))
    else match VersionRef(outputs, f.versionOutputName)
      case None => Failure(VersionOutputNotFound(f.versionOutputName))
      case Some(ref) => Success(ref)
  }

  /** Drops `Environment.Variables`, and the whole `Environment` when nothing
      else is left in it. */
  function StripEnvironment(r: Resource): (s: Resource)
    ensures !HasEnvironmentVariables(s)
    ensures s.resourceType == r.resourceType && s.deletionPolicy == r.deletionPolicy
    ensures !HasEnvironmentVariables(r) ==> s == r
    ensures HasEnvironmentVariables(r) ==>
      s.properties.FunctionProperties? &&
      (s.properties.environment.Some? <==> r.properties.environment.value.otherKeys != {}) &&
      (s.properties.environment.Some? ==>
        s.properties.environment.value.otherKeys == r.properties.environment.value.otherKeys)
  {
    if HasEnvironmentVariables(r) then
      var env := r.properties.environment.value.(variables := None);
      r.(properties := FunctionProperties(if env.otherKeys == {} then None else Some(env)))
    else r
  }

  /** `DeletionPolicy: 'Retain'` when the custom flag asks for it. */
  function Retained(r: Resource, retain: bool): (s: Resource)
    ensures s.deletionPolicy == if retain then Some("Retain") else r.deletionPolicy
    ensures s.(deletionPolicy := r.deletionPolicy) == r
  {
    if retain then r.(deletionPolicy := Some("Retain")) else r
  }

  /** `_.findWhere(CacheBehaviors, {PathPattern: pattern})`: the index of the
      first behaviour with that exact path pattern. */
  function FindBehavior(behaviors: seq<CacheBehavior>, pattern: string): (r: Option<nat>)
    ensures r.None? <==> forall j :: 0 <= j < |behaviors| ==> behaviors[j].pathPattern != Some(pattern)
    ensures r.Some? ==> r.value < |behaviors| && behaviors[r.value].pathPattern == Some(pattern)
    ensures r.Some? ==> forall j :: 0 <= j < r.value ==> behaviors[j].pathPattern != Some(pattern)
  {
    if behaviors == [] then None
    else if behaviors[0].pathPattern == Some(pattern) then Some(0)
    else match FindBehavior(behaviors[1..], pattern)
      case None => None
      case Some(i) => Some(i + 1)
  }

  /** Which behaviour of a distribution an association goes to. */
  datatype Target = DefaultBehavior | PathBehavior(index: nat)

  predicate ValidTarget(config: DistributionConfig, t: Target) {
    t.PathBehavior? ==> t.index < |config.cacheBehaviors|
  }

  function BehaviorAt(config: DistributionConfig, t: Target): CacheBehavior
    requires ValidTarget(config, t)
  {
    match t
    case DefaultBehavior => config.defaultBehavior
    case PathBehavior(i) => config.cacheBehaviors[i]
  }

  /** `if (pathPattern)`: a missing or empty pattern selects the default
      behaviour, any other the first behaviour with that pattern. */
  function SelectTarget(config: DistributionConfig, pathPattern: Option<string>): (r: Option<Target>)
    ensures r == Some(DefaultBehavior) <==> pathPattern.None? || pathPattern == Some("")
    ensures r.None? <==>
      pathPattern.Some? && pathPattern.value != "" &&
      forall j :: 0 <= j < |config.cacheBehaviors| ==> config.cacheBehaviors[j].pathPattern != pathPattern
    ensures r.Some? ==> ValidTarget(config, r.value)
    ensures r.Some? && r.value.PathBehavior? ==>
      pathPattern.Some? && BehaviorAt(config, r.value).pathPattern == pathPattern &&
      forall j :: 0 <= j < r.value.index ==> config.cacheBehaviors[j].pathPattern != pathPattern
  {
    if pathPattern.Some? && pathPattern.value != "" then
      match FindBehavior(config.cacheBehaviors, pathPattern.value)
      case None => None
      case Some(i) => Some(PathBehavior(i))
    else Some(DefaultBehavior)
  }

  /** The entry appended for one association spec. */
  function NewAssociation(spec: AssociationSpec, versionRef: string): (a: Association)
    ensures a.eventType == spec.eventType && a.functionArn == ArnRef(versionRef)
    ensures a.includeBody == if Truthy(spec.includeBody) then spec.includeBody else Bool(false)
  {
    Association(spec.eventType, if Truthy(spec.includeBody) then spec.includeBody else Bool(false), ArnRef(versionRef))
  }

  /** Appends one entry to a behaviour, first replacing a non-array list by `[]`. */
  function AttachAt(config: DistributionConfig, t: Target, a: Association): (c: DistributionConfig)
    requires ValidTarget(config, t)
    ensures |c.cacheBehaviors| == |config.cacheBehaviors| && ValidTarget(c, t)
    ensures BehaviorAt(c, t).associations.AssociationArray?
    ensures Entries(BehaviorAt(c, t).associations) == Entries(BehaviorAt(config, t).associations) + [a]
    ensures BehaviorAt(c, t).pathPattern == BehaviorAt(config, t).pathPattern
    ensures forall u :: ValidTarget(config, u) && u != t ==> BehaviorAt(c, u) == BehaviorAt(config, u)
  {
    var b := BehaviorAt(config, t);
    var b' := b.(associations := AssociationArray(Entries(b.associations) + [a]));
    match t
    case DefaultBehavior => config.(defaultBehavior := b')
    case PathBehavior(i) => config.(cacheBehaviors := config.cacheBehaviors[i := b'])
  }

  /** Association entries only grow, at the end, and behaviours keep their patterns. */
  predicate BehaviorExtends(b: CacheBehavior, b': CacheBehavior) {
    b'.pathPattern == b.pathPattern && Entries(b.associations) <= Entries(b'.associations)
  }

  predicate ConfigExtends(c: DistributionConfig, c': DistributionConfig) {
    BehaviorExtends(c.defaultBehavior, c'.defaultBehavior) &&
    |c'.cacheBehaviors| == |c.cacheBehaviors| &&
    forall i :: 0 <= i < |c.cacheBehaviors| ==> BehaviorExtends(c.cacheBehaviors[i], c'.cacheBehaviors[i])
  }

  predicate Extends(r: Resource, r': Resource) {
    r'.resourceType == r.resourceType &&
    (r.properties.DistributionProperties? ==>
      r'.properties.DistributionProperties? && ConfigExtends(r.properties.config, r'.properties.config))
  }

  predicate ExtendsAll(m: Resources, m': Resources) {
    m'.Keys == m.Keys && forall name :: name in m ==> Extends(m[name], m'[name])
  }

  lemma ExtendsAllTransitive(m1: Resources, m2: Resources, m3: Resources)
    requires ExtendsAll(m1, m2) && ExtendsAll(m2, m3)
    ensures ExtendsAll(m1, m3)
  {
    forall name | name in m1
      ensures Extends(m1[name], m3[name])
    {
      var r1, r2, r3 := m1[name], m2[name], m3[name];
      if r1.properties.DistributionProperties? {
        var c1, c2, c3 := r1.properties.config, r2.properties.config, r3.properties.config;
        forall i | 0 <= i < |c1.cacheBehaviors|
          ensures BehaviorExtends(c1.cacheBehaviors[i], c3.cacheBehaviors[i])
        {
          assert BehaviorExtends(c2.cacheBehaviors[i], c3.cacheBehaviors[i]);
        }
      }
    }
  }

  /** Replacing one resource by an extension of it extends the template. */
  lemma ReplaceExtends(m: Resources, name: string, r': Resource)
    requires name in m && Extends(m[name], r') && DistributionsWellFormed(m)
    ensures ExtendsAll(m, m[name := r']) && DistributionsWellFormed(m[name := r'])
    ensures forall n :: n in m && n != name ==> m[name := r'][n] == m[n]
  {
  }

  /** Stripping and retaining a resource keeps its type and properties' shape. */
  lemma StripExtends(r: Resource, retain: bool)
    ensures Extends(r, Retained(StripEnvironment(r), retain))
  {
    if r.properties.DistributionProperties? {
      assert !HasEnvironmentVariables(r);
    }
  }

  /** Appending to one behaviour extends the distribution config. */
  lemma AttachAtExtends(config: DistributionConfig, t: Target, a: Association)
    requires ValidTarget(config, t)
    ensures ConfigExtends(config, AttachAt(config, t, a))
  {
    var c := AttachAt(config, t, a);
    forall i | 0 <= i < |config.cacheBehaviors|
      ensures BehaviorExtends(config.cacheBehaviors[i], c.cacheBehaviors[i])
    {
      assert BehaviorAt(c, PathBehavior(i)) == c.cacheBehaviors[i];
    }
    assert BehaviorAt(c, DefaultBehavior) == c.defaultBehavior;
  }

  /** The only changes to a deletion policy: `Retain` on the function, when asked. */
  predicate DeletionPoliciesKept(m: Resources, m': Resources, logicalIds: set<string>, retain: bool) {
    forall name :: name in m && name in m' ==>
      m'[name].deletionPolicy == m[name].deletionPolicy ||
      (retain && name in logicalIds && m'[name].deletionPolicy == Some("Retain"))
  }

  /** No resource gains environment variables. */
  predicate NoVariablesAdded(m: Resources, m': Resources) {
    forall name :: name in m && name in m' && !HasEnvironmentVariables(m[name]) ==>
      !HasEnvironmentVariables(m'[name])
  }

  /** What a run may do to the template: extend it, retain the resources
      named in `logicalIds`, and strip variables, nothing else. */
  predicate KeepsShape(m: Resources, m': Resources, logicalIds: set<string>, retain: bool) {
    ExtendsAll(m, m') && DeletionPoliciesKept(m, m', logicalIds, retain) && NoVariablesAdded(m, m')
  }

  lemma KeepsShapeTransitive(m1: Resources, m2: Resources, m3: Resources,
                             ids1: set<string>, ids2: set<string>, ids: set<string>, retain: bool)
    requires KeepsShape(m1, m2, ids1, retain) && KeepsShape(m2, m3, ids2, retain)
    requires ids1 <= ids && ids2 <= ids
    ensures KeepsShape(m1, m3, ids, retain)
  {
    ExtendsAllTransitive(m1, m2, m3);
  }

  /** The template after a step, and the error thrown by it, if any. */
  datatype Step = Step(resources: Resources, error: Option<AssociationError>)

  /** `_handleSingleFunctionAssociation` for one entry. */
  function AssociateOne(resources: Resources, outputs: Outputs, f: FunctionDef, spec: AssociationSpec, retain: bool)
    : (r: Step)
    requires f.logicalId in resources && DistributionsWellFormed(resources)
    // shape kept
    ensures ExtendsAll(resources, r.resources) && DistributionsWellFormed(r.resources)
    ensures forall name :: name in resources && name != f.logicalId && name != spec.distribution ==>
      r.resources[name] == resources[name]
    // the four checks come first and change nothing
    ensures Validate(resources, outputs, f, spec).Failure? ==>
      r == Step(resources, Some(Validate(resources, outputs, f, spec).error))
    // once the checks pass: the function is stripped and retained, and a
    // missing behaviour leaves the distribution as it was
    ensures Validate(resources, outputs, f, spec).Success? && spec.distribution != f.logicalId ==>
      r.resources[f.logicalId] == Retained(StripEnvironment(resources[f.logicalId]), retain) &&
      (r.error.Some? ==> r.resources[spec.distribution] == resources[spec.distribution])
  {
    match Validate(resources, outputs, f, spec)
    case Failure(e) => Step(resources, Some(e))
    case Success(versionRef) =>
      var fn := Retained(StripEnvironment(resources[f.logicalId]), retain);
      StripExtends(resources[f.logicalId], retain);
      ReplaceExtends(resources, f.logicalId, fn);
      var stripped := resources[f.logicalId := fn];
      var dist := stripped[spec.distribution];
      assert dist.properties == resources[spec.distribution].properties;
      var config := dist.properties.config;
      match SelectTarget(config, spec.pathPattern)
      case None => Step(stripped, Some(CacheBehaviorNotFound(spec.distribution, spec.pathPattern.value)))
      case Some(t) =>
        var a := NewAssociation(spec, versionRef);
        AttachAtExtends(config, t, a);
        var attached := dist.(properties := DistributionProperties(AttachAt(config, t, a)));
        ReplaceExtends(stripped, spec.distribution, attached);
        ExtendsAllTransitive(resources, stripped, stripped[spec.distribution := attached]);
        Step(stripped[spec.distribution := attached], None)
  }

  /** Once the checks pass the function is stripped (and retained), even when
      the cache behaviour is then not found; nothing else loses or gains
      variables or a deletion policy. */
  lemma AssociateOneStripsFunction(resources: Resources, outputs: Outputs, f: FunctionDef,
                                   spec: AssociationSpec, retain: bool)
    requires f.logicalId in resources && DistributionsWellFormed(resources)
    ensures var r := AssociateOne(resources, outputs, f, spec, retain);
      DeletionPoliciesKept(resources, r.resources, {f.logicalId}, retain) &&
      NoVariablesAdded(resources, r.resources)
    ensures var r := AssociateOne(resources, outputs, f, spec, retain);
      Validate(resources, outputs, f, spec).Success? ==>
        !HasEnvironmentVariables(r.resources[f.logicalId]) &&
        r.resources[f.logicalId].deletionPolicy ==
          (if retain then Some("Retain") else resources[f.logicalId].deletionPolicy)
  {
    var r := AssociateOne(resources, outputs, f, spec, retain);
    if Validate(resources, outputs, f, spec).Success? {
      var fn := Retained(StripEnvironment(resources[f.logicalId]), retain);
      var dist := resources[spec.distribution];
      if spec.distribution != f.logicalId {
        assert r.resources[f.logicalId] == fn;
      } else {
        assert dist.properties.DistributionProperties?;
        assert r.resources[f.logicalId].deletionPolicy == fn.deletionPolicy;
      }
    }
  }

  /** After the checks, the entry is appended to the selected behaviour, or the
      behaviour is not found; no other behaviour changes. */
  lemma AssociateOneAppends(resources: Resources, outputs: Outputs, f: FunctionDef, spec: AssociationSpec, retain: bool)
    requires f.logicalId in resources && DistributionsWellFormed(resources)
    requires Validate(resources, outputs, f, spec).Success?
    ensures var r := AssociateOne(resources, outputs, f, spec, retain);
      var config := resources[spec.distribution].properties.config;
      (r.error.None? <==> SelectTarget(config, spec.pathPattern).Some?) &&
      (r.error.Some? ==> r.error == Some(CacheBehaviorNotFound(spec.distribution, spec.pathPattern.value)))
    ensures var r := AssociateOne(resources, outputs, f, spec, retain);
      r.error.None? ==>
      var config := resources[spec.distribution].properties.config;
      var t := SelectTarget(config, spec.pathPattern).value;
      var config' := r.resources[spec.distribution].properties.config;
      Entries(BehaviorAt(config', t).associations) ==
        Entries(BehaviorAt(config, t).associations) +
        [NewAssociation(spec, Validate(resources, outputs, f, spec).value)] &&
      (forall u :: ValidTarget(config, u) && u != t ==> BehaviorAt(config', u) == BehaviorAt(config, u))
  {
  }

  /** The entries of one function, in order; the first error stops the rest. */
  function AssociateEntries(resources: Resources, outputs: Outputs, f: FunctionDef,
                            entries: seq<AssociationSpec>, retain: bool)
    : (r: Step)
    requires (entries != [] ==> f.logicalId in resources) && DistributionsWellFormed(resources)
    ensures r.resources.Keys == resources.Keys && DistributionsWellFormed(r.resources)
    decreases |entries|
  {
    if entries == [] then Step(resources, None)
    else
      var prev := AssociateEntries(resources, outputs, f, entries[..|entries| - 1], retain);
      if prev.error.Some? then prev
      else AssociateOne(prev.resources, outputs, f, entries[|entries| - 1], retain)
  }

  /** The entries of one function only extend the template, strip and retain
      that function, and touch no other deletion policy or variables. */
  lemma {:induction false} EntriesKeepShape(resources: Resources, outputs: Outputs, f: FunctionDef,
                                            entries: seq<AssociationSpec>, retain: bool)
    requires (entries != [] ==> f.logicalId in resources) && DistributionsWellFormed(resources)
    ensures KeepsShape(resources, AssociateEntries(resources, outputs, f, entries, retain).resources,
                       {f.logicalId}, retain)
    decreases |entries|
  {
    if entries != [] {
      var init := entries[..|entries| - 1];
      var prev := AssociateEntries(resources, outputs, f, init, retain);
      EntriesKeepShape(resources, outputs, f, init, retain);
      if prev.error.None? {
        var spec := entries[|entries| - 1];
        AssociateOneStripsFunction(prev.resources, outputs, f, spec, retain);
        var next := AssociateOne(prev.resources, outputs, f, spec, retain);
        KeepsShapeTransitive(resources, prev.resources, next.resources,
                             {f.logicalId}, {f.logicalId}, {f.logicalId}, retain);
      }
    }
  }

  /** The logical ids of the Lambda resources of some functions. */
  function LogicalIds(functions: seq<FunctionDef>): set<string> {
    set i | 0 <= i < |functions| :: functions[i].logicalId
  }

  /** `_modifyLambdaFunctionsAndDistributions`: every function with a
      `lambdaAtEdge` declaration, in order; the first error stops the rest and
      leaves the changes made so far in the template. */
  function AssociateFunctions(resources: Resources, outputs: Outputs, functions: seq<FunctionDef>, retain: bool)
    : (r: Step)
    requires FunctionsResolvable(functions, resources) && DistributionsWellFormed(resources)
    ensures r.resources.Keys == resources.Keys && DistributionsWellFormed(r.resources)
    decreases |functions|
  {
    if functions == [] then Step(resources, None)
    else
      var init := functions[..|functions| - 1];
      var f := functions[|functions| - 1];
      assert forall i :: 0 <= i < |init| ==> init[i] == functions[i];
      var prev := AssociateFunctions(resources, outputs, init, retain);
      if prev.error.Some? then prev
      else AssociateEntries(prev.resources, outputs, f, EdgeEntries(f), retain)
  }

  /** A run only extends the template; deletion policies change only on the
      functions' own resources, and no resource gains variables. */
  lemma {:induction false} FunctionsKeepShape(resources: Resources, outputs: Outputs, functions: seq<FunctionDef>,
                                              retain: bool)
    requires FunctionsResolvable(functions, resources) && DistributionsWellFormed(resources)
    ensures KeepsShape(resources, AssociateFunctions(resources, outputs, functions, retain).resources,
                       LogicalIds(functions), retain)
    decreases |functions|
  {
    if functions != [] {
      var init := functions[..|functions| - 1];
      var f := functions[|functions| - 1];
      assert forall i :: 0 <= i < |init| ==> init[i] == functions[i];
      var prev := AssociateFunctions(resources, outputs, init, retain);
      FunctionsKeepShape(resources, outputs, init, retain);
      if prev.error.None? {
        var next := AssociateEntries(prev.resources, outputs, f, EdgeEntries(f), retain);
        EntriesKeepShape(prev.resources, outputs, f, EdgeEntries(f), retain);
        assert LogicalIds(init) <= LogicalIds(functions) && f.logicalId in LogicalIds(functions);
        KeepsShapeTransitive(resources, prev.resources, next.resources,
                             LogicalIds(init), {f.logicalId}, LogicalIds(functions), retain);
      }
    }
  }

  /** Once an entry throws, the later entries of the function are not processed. */
  lemma {:induction false} EntriesErrorSticks(resources: Resources, outputs: Outputs, f: FunctionDef,
                                              entries: seq<AssociationSpec>, j: nat, retain: bool)
    requires j <= |entries|
    requires (entries != [] ==> f.logicalId in resources) && DistributionsWellFormed(resources)
    requires AssociateEntries(resources, outputs, f, entries[..j], retain).error.Some?
    ensures AssociateEntries(resources, outputs, f, entries, retain) ==
            AssociateEntries(resources, outputs, f, entries[..j], retain)
    decreases |entries|
  {
    if j == |entries| {
      assert entries[..j] == entries;
    } else {
      var init := entries[..|entries| - 1];
      assert init[..j] == entries[..j];
      EntriesErrorSticks(resources, outputs, f, init, j, retain);
    }
  }

  /** Once a function throws, the later functions are not processed. */
  lemma {:induction false} FunctionsErrorSticks(resources: Resources, outputs: Outputs,
                                                functions: seq<FunctionDef>, j: nat, retain: bool)
    requires j <= |functions|
    requires FunctionsResolvable(functions, resources) && DistributionsWellFormed(resources)
    requires FunctionsResolvable(functions[..j], resources)
    requires AssociateFunctions(resources, outputs, functions[..j], retain).error.Some?
    ensures AssociateFunctions(resources, outputs, functions, retain) ==
            AssociateFunctions(resources, outputs, functions[..j], retain)
    decreases |functions|
  {
    if j == |functions| {
      assert functions[..j] == functions;
    } else {
      var init := functions[..|functions| - 1];
      assert init[..j] == functions[..j];
      assert forall i :: 0 <= i < |init| ==> init[i] == functions[i];
      FunctionsErrorSticks(resources, outputs, init, j, retain);
    }
  }

  /** A function whose entries all went through has no environment variables
      left and, when asked, is retained. */
  lemma {:induction false} EntriesStripFunction(resources: Resources, outputs: Outputs, f: FunctionDef,
                                                entries: seq<AssociationSpec>, retain: bool)
    requires entries != [] && f.logicalId in resources && DistributionsWellFormed(resources)
    ensures var r := AssociateEntries(resources, outputs, f, entries, retain);
      r.error.None? ==>
        !HasEnvironmentVariables(r.resources[f.logicalId]) &&
        (retain ==> r.resources[f.logicalId].deletionPolicy == Some("Retain"))
  {
    var prev := AssociateEntries(resources, outputs, f, entries[..|entries| - 1], retain);
    if prev.error.None? {
      var spec := entries[|entries| - 1];
      AssociateOneStripsFunction(prev.resources, outputs, f, spec, retain);
    }
  }

  /** Every function with a declaration has lost its environment variables
      and, when `retain` is set, is retained. */
  predicate FunctionsStripped(m: Resources, functions: seq<FunctionDef>, retain: bool) {
    forall i :: 0 <= i < |functions| && EdgeEntries(functions[i]) != [] ==>
      functions[i].logicalId in m &&
      !HasEnvironmentVariables(m[functions[i].logicalId]) &&
      (retain ==> m[functions[i].logicalId].deletionPolicy == Some("Retain"))
  }

  /** Later steps never undo a strip. */
  lemma StrippedStaysStripped(m: Resources, m': Resources, functions: seq<FunctionDef>, logicalId: string, retain: bool)
    requires KeepsShape(m, m', {logicalId}, retain) && FunctionsStripped(m, functions, retain)
    ensures FunctionsStripped(m', functions, retain)
  {
  }

  /** One more stripped function extends a stripped prefix. */
  lemma StrippedSnoc(m: Resources, init: seq<FunctionDef>, f: FunctionDef, retain: bool)
    requires FunctionsStripped(m, init, retain)
    requires EdgeEntries(f) != [] ==>
      f.logicalId in m && !HasEnvironmentVariables(m[f.logicalId]) &&
      (retain ==> m[f.logicalId].deletionPolicy == Some("Retain"))
    ensures FunctionsStripped(m, init + [f], retain)
  {
    var fs := init + [f];
    forall i | 0 <= i < |fs| && EdgeEntries(fs[i]) != []
      ensures fs[i].logicalId in m && !HasEnvironmentVariables(m[fs[i].logicalId])
      ensures retain ==> m[fs[i].logicalId].deletionPolicy == Some("Retain")
    {
      if i < |init| {
        assert fs[i] == init[i];
      }
    }
  }

  /** After a run without errors every function with a declaration has lost its
      environment variables and, when `retain` is set, is retained. */
  lemma {:induction false} ProcessedFunctionsStripped(resources: Resources, outputs: Outputs,
                                                      functions: seq<FunctionDef>, retain: bool)
    requires FunctionsResolvable(functions, resources) && DistributionsWellFormed(resources)
    ensures var r := AssociateFunctions(resources, outputs, functions, retain);
      r.error.None? ==> FunctionsStripped(r.resources, functions, retain)
    decreases |functions|
  {
    if functions != [] {
      var init := functions[..|functions| - 1];
      var f := functions[|functions| - 1];
      assert forall i :: 0 <= i < |init| ==> init[i] == functions[i];
      var prev := AssociateFunctions(resources, outputs, init, retain);
      if prev.error.None? {
        ProcessedFunctionsStripped(resources, outputs, init, retain);
        var next := AssociateEntries(prev.resources, outputs, f, EdgeEntries(f), retain);
        assert AssociateFunctions(resources, outputs, functions, retain) == next;
        if next.error.None? {
          EntriesKeepShape(prev.resources, outputs, f, EdgeEntries(f), retain);
          StrippedStaysStripped(prev.resources, next.resources, init, f.logicalId, retain);
          if EdgeEntries(f) != [] {
            EntriesStripFunction(prev.resources, outputs, f, EdgeEntries(f), retain);
          }
          StrippedSnoc(next.resources, init, f, retain);
          assert init + [f] == functions;
        }
      }
    }
  }

  /** The entries added for a run of specs of one function, in order. */
  function NewAssociations(entries: seq<AssociationSpec>, versionRef: string): (r: seq<Association>)
    ensures |r| == |entries|
    ensures forall k :: 0 <= k < |entries| ==> r[k] == NewAssociation(entries[k], versionRef)
  {
    if entries == [] then []
    else NewAssociations(entries[..|entries| - 1], versionRef) + [NewAssociation(entries[|entries| - 1], versionRef)]
  }

  /** Entries of one function that all go to the default behaviour of one
      distribution are appended there in declaration order, one each, after
      the entries already present. */
  lemma {:induction false} EntriesAppendedInOrder(resources: Resources, outputs: Outputs, f: FunctionDef,
                                                  entries: seq<AssociationSpec>, d: string, retain: bool)
    requires f.logicalId in resources && DistributionsWellFormed(resources)
    requires d in resources && resources[d].resourceType == DistributionType && d != f.logicalId
    requires forall k :: 0 <= k < |entries| ==> entries[k].distribution == d && entries[k].pathPattern.None?
    ensures var r := AssociateEntries(resources, outputs, f, entries, retain);
      r.error.None? ==>
        Entries(r.resources[d].properties.config.defaultBehavior.associations) ==
        Entries(resources[d].properties.config.defaultBehavior.associations) +
        NewAssociations(entries, VersionRef(outputs, f.versionOutputName).GetOr(""))
    decreases |entries|
  {
    if entries != [] {
      var init := entries[..|entries| - 1];
      var spec := entries[|entries| - 1];
      var prev := AssociateEntries(resources, outputs, f, init, retain);
      if prev.error.None? {
        EntriesAppendedInOrder(resources, outputs, f, init, d, retain);
        var r := AssociateOne(prev.resources, outputs, f, spec, retain);
        if r.error.None? {
          var ref := VersionRef(outputs, f.versionOutputName).GetOr("");
          assert Validate(prev.resources, outputs, f, spec).Success?;
          assert Validate(prev.resources, outputs, f, spec).value == ref;
          var before := Entries(resources[d].properties.config.defaultBehavior.associations);
          var middle := Entries(prev.resources[d].properties.config.defaultBehavior.associations);
          assert SelectTarget(prev.resources[d].properties.config, spec.pathPattern) == Some(DefaultBehavior);
          AssociateOneAppends(prev.resources, outputs, f, spec, retain);
          assert Entries(r.resources[d].properties.config.defaultBehavior.associations) ==
            middle + [NewAssociation(spec, ref)];
          assert middle == before + NewAssociations(init, ref);
          AppendAssociative(before, NewAssociations(init, ref), [NewAssociation(spec, ref)]);
        }
      }
    }
  }

  /** One more entry: the fold over a longer prefix is one more step on the
      template the shorter prefix left. */
  lemma EntriesStep(resources: Resources, outputs: Outputs, f: FunctionDef,
                    entries: seq<AssociationSpec>, j: nat, retain: bool, current: Resources)
    requires j < |entries| && f.logicalId in resources && DistributionsWellFormed(resources)
    requires AssociateEntries(resources, outputs, f, entries[..j], retain) == Step(current, None)
    ensures f.logicalId in current && DistributionsWellFormed(current)
    ensures AssociateEntries(resources, outputs, f, entries[..j + 1], retain) ==
            AssociateOne(current, outputs, f, entries[j], retain)
  {
    assert entries[..j + 1][..j] == entries[..j];
  }

  /** One more function: the fold over a longer prefix runs its entries on the
      template the shorter prefix left. */
  lemma FunctionsStep(resources: Resources, outputs: Outputs, functions: seq<FunctionDef>, i: nat, retain: bool,
                      current: Resources)
    requires i < |functions| && FunctionsResolvable(functions, resources) && DistributionsWellFormed(resources)
    requires FunctionsResolvable(functions[..i], resources)
    requires AssociateFunctions(resources, outputs, functions[..i], retain) == Step(current, None)
    ensures FunctionsResolvable(functions[..i + 1], resources)
    ensures (EdgeEntries(functions[i]) != [] ==> functions[i].logicalId in current) && DistributionsWellFormed(current)
    ensures AssociateFunctions(resources, outputs, functions[..i + 1], retain) ==
            AssociateEntries(current, outputs, functions[i], EdgeEntries(functions[i]), retain)
  {
    assert functions[..i + 1][..i] == functions[..i];
    assert forall k :: 0 <= k <= i ==> functions[..i + 1][k] == functions[k];
  }

  /** After one more function ran: the fold over the longer prefix is its
      outcome, and an error there is the outcome of the whole run. */
  lemma FunctionsAfterStep(resources: Resources, outputs: Outputs, functions: seq<FunctionDef>, i: nat, retain: bool,
                           current: Resources, next: Step)
    requires i < |functions| && FunctionsResolvable(functions, resources) && DistributionsWellFormed(resources)
    requires FunctionsResolvable(functions[..i], resources) && FunctionsResolvable(functions[..i + 1], resources)
    requires AssociateFunctions(resources, outputs, functions[..i], retain) == Step(current, None)
    requires (EdgeEntries(functions[i]) != [] ==> functions[i].logicalId in current) && DistributionsWellFormed(current)
    requires next == AssociateEntries(current, outputs, functions[i], EdgeEntries(functions[i]), retain)
    ensures AssociateFunctions(resources, outputs, functions[..i + 1], retain) == next
    ensures next.error.Some? ==> AssociateFunctions(resources, outputs, functions, retain) == next
  {
    FunctionsStep(resources, outputs, functions, i, retain, current);
    if next.error.Some? {
      FunctionsErrorSticks(resources, outputs, functions, i + 1, retain);
    }
  }
}
