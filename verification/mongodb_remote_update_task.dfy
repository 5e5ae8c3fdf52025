// The MongoDB tag-update task: read the instance's tags from the cloud,
// push the local user metadata as tags, then hand over to a status-sync
// subtask whose result ends the task.

module MongoRemoteUpdateTask {
  import opened Wrappers
  import opened Taskman

  const SyncStage: string := "OnSyncStatusComplete"
  const SyncTaskKind: string := "MongoDBSyncstatusTask"

  /** The replies `OnInit` gets: the cloud instance, its current tags, the
      local user metadata, and the result of setting the tags. */
  datatype Replies = Replies(
    instance: Outcome<CloudError>,
    oldTags: Result<map<string, string>, CloudError>,
    metadata: Result<map<string, string>, string>,
    setTags: Outcome<CloudError>)

  /** Errors that mean the cloud has no tags to update. */
  predicate Skippable(e: CloudError)
  {
    e.cause == NotSupported || e.cause == NotImplemented
  }

  /** `taskFail`: the instance is marked as having failed its tag update,
      and the task fails, both with the error text. */
  function TaskFail(reason: string): (r: seq<Effect>)
    ensures r == [SetStatus(UpdateTagsFailed, reason), StageFailed(reason)]
    ensures Terminals(r) == 1
  {
    [SetStatus(UpdateTagsFailed, reason), StageFailed(reason)]
  }

  /** `OnRemoteUpdateComplete`: the next stage is set, then the status sync
      starts as a child of this task. */
  function Continue(taskId: string): (r: seq<Effect>)
    ensures |r| == 2 && Terminals(r) == 0
    ensures r[0] == SetStage(SyncStage) && r[1] == StartSubtask(SyncTaskKind, taskId)
  {
    [SetStage(SyncStage), StartSubtask(SyncTaskKind, taskId)]
  }

  /** The three ways `OnInit` can go. */
  predicate ReachesSetTags(rep: Replies)
  {
    rep.instance.Pass? && rep.oldTags.Ok? && rep.metadata.Ok?
  }

  predicate Continues(rep: Replies)
  {
    rep.instance.Pass?
    && ((rep.oldTags.Err? && Skippable(rep.oldTags.error))
        || (ReachesSetTags(rep) && (rep.setTags.Pass? || Skippable(rep.setTags.error))))
  }

  predicate MarksFailed(rep: Replies)
  {
    rep.instance.Fail?
    || (rep.oldTags.Err? && !Skippable(rep.oldTags.error))
    || (rep.oldTags.Ok? && rep.metadata.Err?)
  }

  /** `OnInit`. Tags are set only once the instance, its tags and the
      metadata are all in hand; a cloud without tag support skips to the
      status sync; a failure to reach the cloud or to read the metadata
      marks the instance failed; a failure to set the tags fails the task
      without touching the instance's status. */
  function OnInit(rep: Replies, replaceTags: bool, taskId: string): (r: seq<Effect>)
    ensures |r| >= 2
    ensures (exists i :: 0 <= i < |r| && r[i].CallSetTags?) <==> ReachesSetTags(rep)
    ensures ReachesSetTags(rep) ==> r[0] == CallSetTags(rep.metadata.value, replaceTags)
    ensures (exists i :: 0 <= i < |r| && r[i].SetStatus?) <==> MarksFailed(rep)
    ensures Continues(rep) ==> Terminals(r) == 0 && r[|r| - 2] == SetStage(SyncStage)
                               && r[|r| - 1] == StartSubtask(SyncTaskKind, taskId)
    ensures !Continues(rep) ==> Terminals(r) == 1 && r[|r| - 1].StageFailed?
                                && forall i :: 0 <= i < |r| ==> !r[i].StartSubtask?
  {
    match rep.instance
    case Fail(e) => TaskFail(Wrap(e, "GetIMongoDB").text)
    case Pass =>
      match rep.oldTags
      case Err(e) =>
        if Skippable(e) then Continue(taskId) else TaskFail(Wrap(e, "GetTags").text)
      case Ok(_) =>
        match rep.metadata
        case Err(m) => TaskFail("GetAllUserMetadata: " + m)
        case Ok(tags) =>
          var rest :=
            match rep.setTags
            case Fail(e) =>
              if Skippable(e) then Continue(taskId) else [ActionLog(false), StageFailed(e.text)]
            case Pass => [ActionLog(true)] + Continue(taskId);
          var r := [CallSetTags(tags, replaceTags)] + rest;
          TerminalsConcat([CallSetTags(tags, replaceTags)], rest);
          assert r[0].CallSetTags?;
          r
  }

  /** `OnSyncStatusComplete` and `OnSyncStatusCompleteFailed`: the child's
      result ends the task, its data passed on when it failed. */
  function OnSyncStatus(childOk: bool, childData: string): (r: seq<Effect>)
    ensures Terminals(r) == 1
    ensures r[|r| - 1].StageComplete? <==> childOk
  {
    if childOk then [StageComplete] else [StageFailed(childData)]
  }

  /** The whole task: `OnInit`, then, when it handed over, the child's
      result. */
  function Run(rep: Replies, replaceTags: bool, taskId: string, childOk: bool, childData: string): seq<Effect>
  {
    var first := OnInit(rep, replaceTags, taskId);
    if Continues(rep) then first + OnSyncStatus(childOk, childData) else first
  }

  /** Whatever the replies, the task ends exactly once, and it completes
      exactly when it handed over to the status sync and that succeeded. */
  lemma RunEndsOnce(rep: Replies, replaceTags: bool, taskId: string, childOk: bool, childData: string)
    ensures var r := Run(rep, replaceTags, taskId, childOk, childData);
            Terminals(r) == 1 && Terminal(r[|r| - 1])
            && (r[|r| - 1].StageComplete? <==> Continues(rep) && childOk)
  {
    if Continues(rep) {
      TerminalsConcat(OnInit(rep, replaceTags, taskId), OnSyncStatus(childOk, childData));
    }
  }

  /** A cloud that does not support tags is never asked to set them. */
  lemma UnsupportedTagsSkipSetTags(rep: Replies, replaceTags: bool, taskId: string)
    requires rep.instance.Pass? && rep.oldTags.Err? && Skippable(rep.oldTags.error)
    ensures OnInit(rep, replaceTags, taskId) == Continue(taskId)
  {
  }
}
