/** Patching the Lambda execution role (`_modifyExecutionRole`): let the
    Lambda@Edge service take on the role, and grant log permissions on any log
    group, since replicated functions log under names chosen by AWS. */
module ExecutionRole {
  import opened CloudFormation

  const RoleLogicalId: string := "IamRoleLambdaExecution"
  const LambdaPrincipal: string := "lambda.amazonaws.com"
  const EdgePrincipal: string := "edgelambda.amazonaws.com"
  const LogsResource: string := "arn:aws:logs:*:*:*"

  /** The statement appended to the role's first policy on every run. */
  const LogsStatement: PolicyStatement := PolicyStatement(
    "Allow",
    ["logs:CreateLogGroup", "logs:CreateLogStream", "logs:PutLogEvents", "logs:DescribeLogStreams"],
    LogsResource)

  /** What the plugin reports about the role: missing (a warning), or patched,
      with whether any trust statement gained the edge principal (no
      statement gaining it is a warning too). */
  datatype RoleOutcome = RoleNotFound | RolePatched(assumeRoleUpdated: bool) {
    predicate Warned() {
      RoleNotFound? || !assumeRoleUpdated
    }
  }

  /** The role resource, when present, has the role shape and at least one policy. */
  predicate RoleWellFormed(resources: Resources) {
    RoleLogicalId in resources ==>
      resources[RoleLogicalId].properties.RoleProperties? &&
      |resources[RoleLogicalId].properties.policies| > 0
  }

  /** A service list that trusts Lambda but not yet Lambda@Edge. A single
      service name is never patched: underscore's `_.contains` on a string
      compares it character by character. */
  predicate NeedsEdgePrincipal(s: Service) {
    s.ServiceList? && LambdaPrincipal in s.names && EdgePrincipal !in s.names
  }

  function PatchService(s: Service): (r: Service)
    ensures NeedsEdgePrincipal(s) ==> r == ServiceList(s.names + [EdgePrincipal])
    ensures !NeedsEdgePrincipal(s) ==> r == s
    ensures s.ServiceList? ==> r.ServiceList? && s.names <= r.names
    ensures s.ServiceList? ==> (EdgePrincipal in r.names <==> EdgePrincipal in s.names || LambdaPrincipal in s.names)
    ensures s.ServiceList? ==>
      multiset(r.names)[EdgePrincipal] == if NeedsEdgePrincipal(s) then 1 else multiset(s.names)[EdgePrincipal]
  {
    if NeedsEdgePrincipal(s) then ServiceList(s.names + [EdgePrincipal]) else s
  }

  function PatchStatement(st: TrustStatement): TrustStatement {
    st.(service := PatchService(st.service))
  }

  /** The trust statements after the patch, statement by statement. */
  function PatchTrust(stmts: seq<TrustStatement>): (r: seq<TrustStatement>)
    ensures |r| == |stmts|
    ensures forall i :: 0 <= i < |stmts| ==> r[i] == PatchStatement(stmts[i])
  {
    if stmts == [] then []
    else PatchTrust(stmts[..|stmts| - 1]) + [PatchStatement(stmts[|stmts| - 1])]
  }

  /** Whether the loop sets `assumeRoleUpdated`. */
  predicate AssumeRoleUpdated(stmts: seq<TrustStatement>) {
    exists i :: 0 <= i < |stmts| && NeedsEdgePrincipal(stmts[i].service)
  }

  /** The trust patch is idempotent: a second run adds no duplicate principal. */
  lemma {:induction false} PatchTrustIdempotent(stmts: seq<TrustStatement>)
    ensures PatchTrust(PatchTrust(stmts)) == PatchTrust(stmts)
  {
    var once := PatchTrust(stmts);
    forall i | 0 <= i < |stmts|
      ensures PatchTrust(once)[i] == once[i]
    {
      assert !NeedsEdgePrincipal(once[i].service);
    }
  }

  /** `assumeRoleUpdated` holds exactly when some statement changed. */
  lemma {:induction false} UpdatedIffChanged(stmts: seq<TrustStatement>)
    ensures AssumeRoleUpdated(stmts) <==> PatchTrust(stmts) != stmts
  {
    var patched := PatchTrust(stmts);
    if AssumeRoleUpdated(stmts) {
      var i :| 0 <= i < |stmts| && NeedsEdgePrincipal(stmts[i].service);
      assert |patched[i].service.names| == |stmts[i].service.names| + 1;
    } else {
      forall i | 0 <= i < |stmts|
        ensures patched[i] == stmts[i]
      {
        assert !NeedsEdgePrincipal(stmts[i].service);
      }
    }
  }

  /** The role's policies after one logs statement is appended to the first. */
  function AddLogsPermission(policies: seq<Policy>): (r: seq<Policy>)
    requires |policies| > 0
    ensures |r| == |policies| && r[1..] == policies[1..]
    ensures r[0].policyName == policies[0].policyName
    ensures r[0].statements == policies[0].statements + [LogsStatement]
  {
    [policies[0].(statements := policies[0].statements + [LogsStatement])] + policies[1..]
  }

  /** `patched` is `role` after the patch: each trust statement has its
      service patched, the first policy has gained exactly the logs statement
      at the end, and the rest of the role is kept. */
  predicate RolePatchedFrom(role: Resource, patched: Resource)
    requires role.properties.RoleProperties? && |role.properties.policies| > 0
  {
    var trust, policies := role.properties.trust, role.properties.policies;
    patched.resourceType == role.resourceType && patched.deletionPolicy == role.deletionPolicy &&
    patched.properties.RoleProperties? &&
    |patched.properties.trust| == |trust| &&
    (forall i :: 0 <= i < |trust| ==>
      patched.properties.trust[i] == trust[i].(service := PatchService(trust[i].service))) &&
    |patched.properties.policies| == |policies| &&
    patched.properties.policies[0].policyName == policies[0].policyName &&
    patched.properties.policies[0].statements == policies[0].statements + [LogsStatement] &&
    patched.properties.policies[1..] == policies[1..]
  }

  function PatchRole(role: Resource): (r: Resource)
    requires role.properties.RoleProperties? && |role.properties.policies| > 0
    ensures RolePatchedFrom(role, r)
    ensures r.properties.RoleProperties? && |r.properties.policies| > 0
  {
    role.(properties := RoleProperties(PatchTrust(role.properties.trust), AddLogsPermission(role.properties.policies)))
  }

  /** The template's resources after `_modifyExecutionRole`: unchanged when the
      role is absent, otherwise only the role is patched. */
  function PatchExecutionRole(resources: Resources): (r: Resources)
    requires RoleWellFormed(resources)
    ensures r.Keys == resources.Keys && RoleWellFormed(r)
    ensures RoleLogicalId !in resources ==> r == resources
    ensures RoleLogicalId in resources ==> RolePatchedFrom(resources[RoleLogicalId], r[RoleLogicalId])
    ensures forall name :: name in resources && name != RoleLogicalId ==> r[name] == resources[name]
    ensures DistributionsWellFormed(resources) ==> DistributionsWellFormed(r)
  {
    if RoleLogicalId in resources then resources[RoleLogicalId := PatchRole(resources[RoleLogicalId])]
    else resources
  }

  /** Running the role patch twice leaves the trust statements as after one run
      but appends the logs statement twice: that append is not deduplicated. */
  lemma PatchRoleTwice(role: Resource)
    requires role.properties.RoleProperties? && |role.properties.policies| > 0
    ensures PatchRole(PatchRole(role)).properties.trust == PatchRole(role).properties.trust
    ensures PatchRole(PatchRole(role)).properties.policies[0].statements ==
            role.properties.policies[0].statements + [LogsStatement, LogsStatement]
  {
    PatchTrustIdempotent(role.properties.trust);
  }

  /** The loop over the trust statements, collecting the patched statements and
      the `assumeRoleUpdated` flag. */
  method PatchTrustStatements(stmts: seq<TrustStatement>) returns (patched: seq<TrustStatement>, updated: bool)
    ensures patched == PatchTrust(stmts)
    ensures updated == AssumeRoleUpdated(stmts)
  {
    patched, updated := [], false;
    var i := 0;
    while i < |stmts|
      invariant 0 <= i <= |stmts|
      invariant patched == PatchTrust(stmts[..i])
      invariant updated == AssumeRoleUpdated(stmts[..i])
    {
      var svc := stmts[i].service;
      if NeedsEdgePrincipal(svc) {
        svc := ServiceList(svc.names + [EdgePrincipal]);
        updated := true;
      }
      patched := patched + [stmts[i].(service := svc)];
      assert stmts[..i + 1][..i] == stmts[..i];
      i := i + 1;
    }
    assert stmts[..i] == stmts;
  }
}
