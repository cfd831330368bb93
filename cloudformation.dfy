/** The part of a compiled CloudFormation template that the plugin reads and
    rewrites: logical resources with a `Type`, `Properties` and an optional
    `DeletionPolicy`, and stack outputs whose `Value` is a `Ref`.
    Properties are a tagged union of the three shapes the plugin touches
    (a Lambda function, a CloudFront distribution, the IAM execution role);
    every other resource is carried unchanged. */
module CloudFormation {
  import opened Wrappers
  import opened Js

  const DistributionType: string := "AWS::CloudFront::Distribution"

  /** `Principal.Service` of a trust statement: absent, one name, or a list. */
  datatype Service = NoService | ServiceName(name: string) | ServiceList(names: seq<string>)

  /** One statement of `AssumeRolePolicyDocument.Statement` (its `Principal` is
      always present). */
  datatype TrustStatement = TrustStatement(effect: string, service: Service, action: string)

  /** One statement of a permission policy's `PolicyDocument.Statement`. */
  datatype PolicyStatement = PolicyStatement(effect: string, actions: seq<string>, resource: string)

  datatype Policy = Policy(policyName: string, statements: seq<PolicyStatement>)

  /** A function's `Environment` block: its `Variables` map, when present, and
      the names of its other keys. */
  datatype Environment = Environment(variables: Option<map<string, string>>, otherKeys: set<string>)

  /** `LambdaFunctionARN` of an association: a `{Ref: ...}` or a literal ARN. */
  datatype Arn = ArnRef(logicalId: string) | ArnLiteral(arn: string)

  /** One entry of `LambdaFunctionAssociations`. */
  datatype Association = Association(eventType: string, includeBody: JsValue, functionArn: Arn)

  /** `LambdaFunctionAssociations` of a cache behaviour: an array, or anything
      else (absent included). */
  datatype AssociationList = AssociationArray(entries: seq<Association>) | NotAnArray

  datatype CacheBehavior = CacheBehavior(pathPattern: Option<string>, associations: AssociationList)

  /** `DistributionConfig`: `DefaultCacheBehavior` and the `CacheBehaviors`
      list (absent is the empty list). */
  datatype DistributionConfig = DistributionConfig(defaultBehavior: CacheBehavior, cacheBehaviors: seq<CacheBehavior>)

  datatype Properties =
    | FunctionProperties(environment: Option<Environment>)
    | DistributionProperties(config: DistributionConfig)
    | RoleProperties(trust: seq<TrustStatement>, policies: seq<Policy>)
    | OtherProperties

  datatype Resource = Resource(resourceType: string, properties: Properties, deletionPolicy: Option<string>)

  /** A stack output; `valueRef` is its `Value.Ref`, when there is one. */
  datatype Output = Output(valueRef: Option<string>)

  type Resources = map<string, Resource>
  type Outputs = map<string, Output>

  /** The association entries a list holds; a non-array holds none. */
  function Entries(list: AssociationList): seq<Association> {
    match list
    case AssociationArray(entries) => entries
    case NotAnArray => []
  }

  /** Every resource declared with the distribution type carries a
      `DistributionConfig` (the plugin reads it without checking). */
  predicate DistributionsWellFormed(resources: Resources) {
    forall name :: name in resources && resources[name].resourceType == DistributionType ==>
      resources[name].properties.DistributionProperties?
  }

  /** The function resource still declares environment variables. */
  predicate HasEnvironmentVariables(r: Resource) {
    r.properties.FunctionProperties? && r.properties.environment.Some? &&
    r.properties.environment.value.variables.Some?
  }
}
