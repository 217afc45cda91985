/**
 * The configuration the checker consumes (internal/config/config.go).
 * Only the fields that the checker reads are kept.
 */
module Configuration {

  /** One policy: a selector (type, Name glob, required tags) and a runtime threshold. */
  datatype Target = Target(
    instanceType: string,          // exact instance type, "" means any
    name: string,                  // glob over the Name tag, "" means any
    tags: map<string, string>,     // every key must map to its value
    maxRuntimeHours: real)         // threshold in hours

  datatype Config = Config(
    targets: seq<Target>,          // evaluated in this order, first match wins
    snsTopicArn: string,           // "" means no notification
    dryRun: bool,                  // true means never terminate
    vpcId: string)                 // "" means no VPC restriction
}
