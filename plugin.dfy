/** The plugin's template hook (`_modifyTemplate`) as it runs: the compiled
    template is one mutable object, rewritten in place step by step. Each
    method is proved to leave the template exactly as the corresponding
    function of modules ExecutionRole and Association describes. */
module Plugin {
  import opened Wrappers
  import opened CloudFormation
  import opened PluginConfig
  import opened ExecutionRole
  import opened Association

  class CompiledTemplate {
    var resources: Resources
    var outputs: Outputs

    constructor (resources: Resources, outputs: Outputs)
      ensures this.resources == resources && this.outputs == outputs
    {
      this.resources := resources;
      this.outputs := outputs;
    }

    /** `_modifyExecutionRole`. */
    method ModifyExecutionRole() returns (outcome: RoleOutcome)
      requires RoleWellFormed(resources)
      modifies this`resources
      ensures resources == PatchExecutionRole(old(resources))
      ensures outcome ==
        if RoleLogicalId in old(resources) then
          RolePatched(AssumeRoleUpdated(old(resources)[RoleLogicalId].properties.trust))
        else RoleNotFound
    {
      if RoleLogicalId !in resources {
        return RoleNotFound;
      }
      var role := resources[RoleLogicalId];
      var trust, updated := PatchTrustStatements(role.properties.trust);
      var policies := role.properties.policies;
      var first := policies[0].(statements := policies[0].statements + [LogsStatement]);
      resources := resources[RoleLogicalId := role.(properties := RoleProperties(trust, [first] + policies[1..]))];
      outcome := RolePatched(updated);
    }

    /** `_handleSingleFunctionAssociation`: check, strip, retain, then append. */
    method HandleSingleFunctionAssociation(f: FunctionDef, spec: AssociationSpec, custom: Option<CustomConfig>)
      returns (err: Option<AssociationError>)
      requires f.logicalId in resources && DistributionsWellFormed(resources)
      modifies this`resources
      ensures Step(resources, err) == AssociateOne(old(resources), outputs, f, spec, RetainFunctions(custom))
    {
      var retain := RetainFunctions(custom);
      if spec.eventType !in ValidEventTypes {
        return Some(InvalidEventType(spec.eventType));
      }
      if spec.distribution !in resources {
        return Some(DistributionNotFound(spec.distribution));
      }
      if resources[spec.distribution].resourceType != DistributionType {
        return Some(NotADistribution(spec.distribution));
      }
      var versionRef := VersionRef(outputs, f.versionOutputName);
      if versionRef.None? {
        return Some(VersionOutputNotFound(f.versionOutputName));
      }

      assert Validate(resources, outputs, f, spec) == Success(versionRef.value);
      ghost var start := resources;
      var fn := resources[f.logicalId];
      if HasEnvironmentVariables(fn) {
        var env := fn.properties.environment.value.(variables := None);
        fn := fn.(properties := FunctionProperties(Some(env)));
        if env.otherKeys == {} {
          fn := fn.(properties := FunctionProperties(None));
        }
      }
      if retain {
        fn := fn.(deletionPolicy := Some("Retain"));
      }
      assert fn == Retained(StripEnvironment(start[f.logicalId]), retain);
      resources := resources[f.logicalId := fn];

      var dist := resources[spec.distribution];
      var config := dist.properties.config;
      var target: Target;
      if spec.pathPattern.Some? && spec.pathPattern.value != "" {
        var found := FindBehavior(config.cacheBehaviors, spec.pathPattern.value);
        if found.None? {
          return Some(CacheBehaviorNotFound(spec.distribution, spec.pathPattern.value));
        }
        target := PathBehavior(found.value);
      } else {
        target := DefaultBehavior;
      }
      assert SelectTarget(config, spec.pathPattern) == Some(target);
      ghost var original := config;

      var behavior := BehaviorAt(config, target);
      var list := behavior.associations;
      if !list.AssociationArray? {
        list := AssociationArray([]);
      }
      list := AssociationArray(list.entries + [NewAssociation(spec, versionRef.value)]);
      behavior := behavior.(associations := list);
      match target {
        case DefaultBehavior =>
          config := config.(defaultBehavior := behavior);
        case PathBehavior(i) =>
          config := config.(cacheBehaviors := config.cacheBehaviors[i := behavior]);
      }
      assert config == AttachAt(original, target, NewAssociation(spec, versionRef.value));
      resources := resources[spec.distribution := dist.(properties := DistributionProperties(config))];
      err := None;
    }

    /** The body of `_modifyLambdaFunctionsAndDistributions` for one function:
        its entries in order (one object is one entry); the first error is
        thrown at once. */
    method HandleFunctionAssociations(f: FunctionDef, custom: Option<CustomConfig>)
      returns (err: Option<AssociationError>)
      requires (EdgeEntries(f) != [] ==> f.logicalId in resources) && DistributionsWellFormed(resources)
      modifies this`resources
      ensures Step(resources, err) ==
        AssociateEntries(old(resources), outputs, f, EdgeEntries(f), RetainFunctions(custom))
    {
      var retain := RetainFunctions(custom);
      var entries := EdgeEntries(f);
      ghost var start := resources;
      var outs := outputs;
      assert entries[..0] == [];
      var j := 0;
      while j < |entries|
        invariant 0 <= j <= |entries|
        invariant entries != [] ==> f.logicalId in start
        invariant AssociateEntries(start, outs, f, entries[..j], retain) == Step(resources, None)
      {
        EntriesStep(start, outs, f, entries, j, retain, resources);
        err := HandleSingleFunctionAssociation(f, entries[j], custom);
        if err.Some? {
          EntriesErrorSticks(start, outs, f, entries, j + 1, retain);
          return;
        }
        j := j + 1;
      }
      assert entries[..j] == entries;
      err := None;
    }

    /** `_modifyLambdaFunctionsAndDistributions`: the functions in order; the
        first error is thrown at once, leaving earlier changes in place. */
    method ModifyLambdaFunctionsAndDistributions(functions: seq<FunctionDef>, custom: Option<CustomConfig>)
      returns (err: Option<AssociationError>)
      requires FunctionsResolvable(functions, resources) && DistributionsWellFormed(resources)
      modifies this`resources
      ensures Step(resources, err) == AssociateFunctions(old(resources), outputs, functions, RetainFunctions(custom))
    {
      var retain := RetainFunctions(custom);
      ghost var start := resources;
      var outs := outputs;
      assert functions[..0] == [];
      var i := 0;
      while i < |functions|
        invariant 0 <= i <= |functions|
        invariant FunctionsResolvable(functions[..i], start)
        invariant AssociateFunctions(start, outs, functions[..i], retain) == Step(resources, None)
      {
        ghost var before := resources;
        FunctionsStep(start, outs, functions, i, retain, before);
        err := HandleFunctionAssociations(functions[i], custom);
        FunctionsAfterStep(start, outs, functions, i, retain, before, Step(resources, err));
        if err.Some? {
          assert start == old(resources) && outs == outputs;
          return;
        }
        i := i + 1;
      }
      assert functions[..i] == functions;
      assert start == old(resources) && outs == outputs;
      err := None;
    }

    /** `_modifyTemplate`: the role first, then the associations. */
    method ModifyTemplate(functions: seq<FunctionDef>, custom: Option<CustomConfig>)
      returns (outcome: RoleOutcome, err: Option<AssociationError>)
      requires RoleWellFormed(resources) && DistributionsWellFormed(resources)
      requires FunctionsResolvable(functions, resources)
      modifies this`resources
      ensures outcome ==
        if RoleLogicalId in old(resources) then
          RolePatched(AssumeRoleUpdated(old(resources)[RoleLogicalId].properties.trust))
        else RoleNotFound
      ensures Step(resources, err) ==
        AssociateFunctions(PatchExecutionRole(old(resources)), outputs, functions, RetainFunctions(custom))
    {
      outcome := ModifyExecutionRole();
      err := ModifyLambdaFunctionsAndDistributions(functions, custom);
    }
  }
}
