/** The task queue object: enqueueing, cancelling, retrying and claiming tasks. */
module Queue {
  import opened Wrappers
  import opened Tables
  import opened Store
  import Gateway

  /** A create request; absent fields take defaults. */
  datatype CreateTaskRequest = CreateTaskRequest(
    prompt: string, duration: Option<int>, ratio: Option<string>, model: Option<string>,
    resolution: Option<string>, webhookUrl: Option<string>)

  function OrElse<T>(o: Option<T>, default: T): T {
    if o.Some? then o.value else default
  }

  function PayloadOf(req: CreateTaskRequest, body: Option<seq<bv8>>, contentType: Option<string>): Payload {
    Payload(OrElse(req.model, "jimeng-video-seedance-2.0"), req.prompt, OrElse(req.duration, 4),
            OrElse(req.ratio, "9:16"), req.resolution, body, contentType)
  }

  class TaskQueue {
    const db: Database

    constructor (db: Database)
      ensures this.db == db
    {
      this.db := db;
    }

    /** The new task is queued with what the client sent, or the defaults, and stands behind all tasks queued
        before. `id` is a fresh UUID. */
    method Enqueue(id: TaskId, req: CreateTaskRequest, body: Option<seq<bv8>>, contentType: Option<string>, now: nat)
      returns (task: Task)
      requires id !in db.tasks
      modifies db`tasks
      ensures db.tasks == Gateway.TasksAfter(
                old(db.tasks), Gateway.Enqueue(id, PayloadOf(req, body, contentType), req.webhookUrl), now)
      ensures task == db.tasks[id]
      ensures db.tasks == old(db.tasks)[id := task]
      ensures task.status.Queued? && task.createdAt == now && task.updatedAt == now && task.webhookUrl == req.webhookUrl
      ensures task.startedAt == task.finishedAt == None
      ensures task.sessionPoolId == task.historyRecordId == task.videoUrl == task.errorMessage == None
      ensures task.payload.prompt == req.prompt && task.payload.resolution == req.resolution
      ensures task.payload.body == body && task.payload.contentType == contentType
      ensures task.payload.model == if req.model.Some? then req.model.value else "jimeng-video-seedance-2.0"
      ensures task.payload.duration == if req.duration.Some? then req.duration.value else 4
      ensures task.payload.ratio == if req.ratio.Some? then req.ratio.value else "9:16"
    {
      var model := if req.model.Some? then req.model.value else "jimeng-video-seedance-2.0";
      var duration := if req.duration.Some? then req.duration.value else 4;
      var ratio := if req.ratio.Some? then req.ratio.value else "9:16";
      var payload := Payload(model, req.prompt, duration, ratio, req.resolution, body, contentType);
      task := NewTask(payload, req.webhookUrl, now);
      db.tasks := db.tasks[id := task];
    }

    method CancelTask(id: TaskId, now: nat) returns (cancelled: bool)
      modifies db`tasks
      ensures cancelled <==> id in old(db.tasks) && old(db.tasks)[id].status in {Queued, Submitting, Polling}
      ensures db.tasks == if !cancelled then old(db.tasks)
                          else var row := old(db.tasks)[id];
                               old(db.tasks)[id := row.(status := Cancelled, finishedAt := Some(now), updatedAt := now)]
      ensures db.tasks == Gateway.TasksAfter(old(db.tasks), Gateway.CancelTask(id), now)
    {
      cancelled := id in db.tasks && Cancellable(db.tasks[id].status);
      if cancelled {
        db.tasks := db.tasks[id := db.tasks[id].(status := Cancelled, finishedAt := Some(now), updatedAt := now)];
      }
    }

    /** A retry clones what the client sent, but not the webhook, and leaves the original alone.
        `freshId` is a fresh UUID. */
    method RetryTask(id: TaskId, freshId: TaskId, now: nat) returns (task: Option<Task>)
      requires freshId !in db.tasks
      modifies db`tasks
      ensures task.Some? <==> id in old(db.tasks)
      ensures task.None? ==> db.tasks == old(db.tasks)
      ensures task.Some? ==> db.tasks == old(db.tasks)[freshId := task.value]
      ensures task.Some? ==> task.value == NewTask(old(db.tasks)[id].payload, None, now)
      ensures task.Some? ==> task.value.status.Queued? && task.value.createdAt == now && task.value.webhookUrl.None?
                             && task.value.payload == old(db.tasks)[id].payload
    {
      if id !in db.tasks {
        return None;
      }
      var src := db.tasks[id].payload;
      var req := CreateTaskRequest(
        src.prompt, Some(src.duration), Some(src.ratio), Some(src.model), src.resolution, None);
      var clone := Enqueue(freshId, req, src.body, src.contentType, now);
      task := Some(clone);
    }

    /** The claim at the top of `worker_loop`: an oldest queued task, if there is one. */
    method ClaimTask(now: nat) returns (claimed: Option<TaskId>)
      modifies db`tasks
      ensures claimed.None? <==> forall t :: t in old(db.tasks) ==> !old(db.tasks)[t].status.Queued?
      ensures claimed.None? ==> db.tasks == old(db.tasks)
      ensures claimed.Some? ==>
        claimed.value in old(db.tasks) &&
        var row := old(db.tasks)[claimed.value];
        && row.status.Queued?
        && (forall t :: t in old(db.tasks) && old(db.tasks)[t].status.Queued? ==>
              row.createdAt <= old(db.tasks)[t].createdAt)
        && db.tasks == old(db.tasks)[
             claimed.value := row.(status := Submitting, startedAt := Some(now), updatedAt := now)]
      ensures claimed.Some? ==> db.tasks == Gateway.TasksAfter(old(db.tasks), Gateway.ClaimTask(claimed.value), now)
    {
      claimed := None;
      if exists t :: t in db.tasks && db.tasks[t].status.Queued? {
        ghost var some :| some in db.tasks && db.tasks[some].status.Queued?;
        ClaimableExists(db.tasks, some);
        var t :| t in db.tasks && Claimable(db.tasks, t);
        db.tasks := db.tasks[t := db.tasks[t].(status := Submitting, startedAt := Some(now), updatedAt := now)];
        claimed := Some(t);
      }
    }
  }
}
