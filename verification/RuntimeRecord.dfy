/** runtime.json: the record a hub publishes (packages/hub/src/cli.ts). */
module RuntimeRecord {
  import opened Prelude

  datatype RuntimeInfo = RuntimeInfo(
    pid: nat, port: nat, startedAt: string, instanceId: Option<string>, ownerToken: Option<string>)

  datatype RecordFile = Absent | Unreadable | Present(runtime: RuntimeInfo)

  /** Records without an instanceId are legacy and compare by every other field. */
  predicate RuntimeMatches(expected: RuntimeInfo, current: RuntimeInfo) {
    if expected.instanceId.Some? then current.instanceId == expected.instanceId
    else
      && current.instanceId == None
      && current.pid == expected.pid && current.port == expected.port
      && current.startedAt == expected.startedAt && current.ownerToken == expected.ownerToken
  }
}
