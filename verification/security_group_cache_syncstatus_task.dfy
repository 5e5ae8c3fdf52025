// The security-group cache status-sync task: fetch the cloud security
// group and refresh the cache from it, or mark the cache's status unknown.

module SecgroupCacheSyncstatusTask {
  import opened Wrappers
  import opened Taskman

  /** `taskFailed`: the cache's status becomes unknown and the task fails,
      both with the error text. */
  function TaskFailed(reason: string): (r: seq<Effect>)
    ensures Terminals(r) == 1
    ensures r[0] == SetStatus(SecgroupCacheUnknown, reason)
    ensures r[|r| - 1] == StageFailed(reason)
  {
    [SetStatus(SecgroupCacheUnknown, reason), StageFailed(reason)]
  }

  /** `OnInit`: when the cloud security group cannot be fetched the task
      fails before any sync; otherwise the cache is refreshed and the task
      completes without setting a status itself. */
  function OnInit(secgroup: Outcome<CloudError>): (r: seq<Effect>)
    ensures Terminals(r) == 1 && Terminal(r[|r| - 1])
    ensures r[|r| - 1].StageComplete? <==> secgroup.Pass?
    ensures (exists i :: 0 <= i < |r| && r[i].SyncBaseInfo?) <==> secgroup.Pass?
    ensures secgroup.Pass? ==> r[0] == SyncBaseInfo
    ensures (exists i :: 0 <= i < |r| && r[i].SetStatus?) <==> secgroup.Fail?
    ensures secgroup.Fail? ==> r[0] == SetStatus(SecgroupCacheUnknown, Wrap(secgroup.error, "GetISecurityGroup").text)
  {
    match secgroup
    case Fail(e) => TaskFailed(Wrap(e, "GetISecurityGroup").text)
    case Pass => [SyncBaseInfo, StageComplete]
  }
}
