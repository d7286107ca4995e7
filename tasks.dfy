/** `TaskManager` and the `async_task` wrapper: what the service reports
    about a queued task, how it cancels one, and how it submits one.

    Celery's queue is outside the model. The record the result backend
    keeps for a task is an input (`TaskRecord`); the revocations the broker
    has been sent are a field of the manager; task ids the queue generates
    are parameters. Responses are Python dicts, modelled as `Json.Value`
    objects so that which keys are present is visible. */
module Tasks {
  import opened Wrappers
  import opened Json
  import Cache

  /** What `AsyncResult(task_id)` reports: the state name, the three
      predicates the code consults, the progress metadata, the result (the
      exception, for a failed task), its `str(...)`, and the traceback. */
  datatype TaskRecord = TaskRecord(
    state: string,
    ready: bool,
    successful: bool,
    failed: bool,
    info: Value,
    result: Value,
    resultText: string,
    traceback: Value)

  /** The status response. The six fixed keys are always present; an
      absent option is a key the response does not have. */
  datatype StatusResponse = StatusResponse(
    taskId: string,
    status: string,
    ready: bool,
    successful: bool,
    failed: bool,
    info: Value,
    result: Option<Value>,
    error: Option<string>,
    traceback: Option<Value>)

  // ---- the manager --------------------------------------------------------------------

  class TaskManager {
    const cache: Cache.CacheManager
    /** The revoke commands sent to the broker: task id and `terminate`. */
    var revocations: seq<(string, bool)>

    constructor (cache: Cache.CacheManager)
      ensures this.cache == cache && revocations == []
    {
      this.cache := cache;
      revocations := [];
    }

    /** `get_task_status`: the fixed part copied from the record, then
        `result` for a finished successful task, or `error` (the text of the
        exception) and `traceback` for a finished failed one. */
    function GetTaskStatus(taskId: string, r: TaskRecord): (resp: StatusResponse)
      ensures resp.taskId == taskId && resp.status == r.state && resp.info == r.info
      ensures resp.ready == r.ready && resp.successful == r.successful && resp.failed == r.failed
      ensures resp.result.Some? <==> r.ready && r.successful
      ensures resp.error.Some? <==> r.ready && !r.successful && r.failed
      ensures resp.traceback.Some? <==> resp.error.Some?
      ensures resp.result.Some? ==> resp.result.value == r.result
      ensures resp.error.Some? ==> resp.error.value == r.resultText && resp.traceback.value == r.traceback
    {
      var finished := r.ready && r.successful;
      var crashed := r.ready && !r.successful && r.failed;
      StatusResponse(
        taskId, r.state, r.ready, r.successful, r.failed, r.info,
        if finished then Some(r.result) else None,
        if crashed then Some(r.resultText) else None,
        if crashed then Some(r.traceback) else None)
    }

    /** `revoke_task`: sends the revoke, then deletes `task:<id>` from the
        cache and answers `True`. When sending the revoke raises, the
        answer is `False` and neither the broker nor the cache is touched.
        The cache's own store errors are swallowed inside `delete` (and
        counted there), so they do not change the answer. */
    method RevokeTask(taskId: string, terminate: bool, revokeFails: bool, now: int, deleteFault: bool)
      returns (revoked: bool)
      modifies this, cache
      ensures revoked == !revokeFails
      ensures revokeFails ==>
        revocations == old(revocations) && cache.store == old(cache.store) && cache.stats == old(cache.stats)
      ensures !revokeFails ==> revocations == old(revocations) + [(taskId, terminate)]
      ensures !revokeFails && !deleteFault ==>
        cache.store == old(cache.store) - {cache.MakeKey("task:" + taskId)}
        && cache.stats == old(cache.stats).(deletes := old(cache.stats).deletes + 1)
      ensures !revokeFails && deleteFault ==>
        cache.store == old(cache.store) && cache.stats == old(cache.stats).(errors := old(cache.stats).errors + 1)
    {
      if revokeFails {
        return false;
      }
      revocations := revocations + [(taskId, terminate)];
      var _ := cache.Delete("task:" + taskId, now, deleteFault);
      revoked := true;
    }
  }

  // ---- async_task ---------------------------------------------------------------------

  /** `kwargs.pop(key, None)`: the value under `key`, if any, and the
      keyword arguments without it, the others in their order. */
  function Pop(kwargs: seq<Field>, key: string): (r: (Option<Value>, seq<Field>))
    ensures r.0 == FieldValue(kwargs, key)
    ensures key !in FieldKeys(r.1)
    ensures forall k :: k != key ==> FieldValue(r.1, k) == FieldValue(kwargs, k)
    ensures |r.1| <= |kwargs|
  {
    if kwargs == [] then (None, [])
    else
      var rest := Pop(kwargs[1..], key);
      if kwargs[0].key == key then
        (Some(kwargs[0].value), rest.1)
      else
        assert ([kwargs[0]] + rest.1)[1..] == rest.1;
        (rest.0, [kwargs[0]] + rest.1)
  }

  /** What the wrapper hands to `send_task`. */
  datatype Submission = Submission(name: string, args: seq<Value>, kwargs: seq<Field>, taskId: Option<Value>)

  /** The `async_task` wrapper around a function called `name`: `task_id` is
      taken out of the keyword arguments and passed on its own; the answer
      is the id of the submitted task. The queue keeps that `task_id` when
      it is truthy (`task_id or uuid()` inside `send_task`), so a missing,
      `None` or empty id gives the id the queue generated. */
  function SubmitTask(name: string, args: seq<Value>, kwargs: seq<Field>, generatedId: string): (r: (Submission, Value))
    ensures r.0.name == name && r.0.args == args
    ensures r.0.taskId == FieldValue(kwargs, "task_id")
    ensures "task_id" !in FieldKeys(r.0.kwargs)
    ensures forall k :: k != "task_id" ==> FieldValue(r.0.kwargs, k) == FieldValue(kwargs, k)
    ensures r.1 == if r.0.taskId.Some? && Truthy(r.0.taskId.value) then r.0.taskId.value else Str(generatedId)
  {
    var popped := Pop(kwargs, "task_id");
    var sub := Submission(name, args, popped.1, popped.0);
    (sub, if popped.0.Some? && Truthy(popped.0.value) then popped.0.value else Str(generatedId))
  }

  /** Without a `task_id` argument the keyword arguments are forwarded
      unchanged. */
  lemma {:induction false} PopAbsentKey(kwargs: seq<Field>, key: string)
    requires key !in FieldKeys(kwargs)
    ensures Pop(kwargs, key) == (None, kwargs)
    decreases |kwargs|
  {
    if kwargs != [] {
      PopAbsentKey(kwargs[1..], key);
      assert [kwargs[0]] + kwargs[1..] == kwargs;
    }
  }
}
