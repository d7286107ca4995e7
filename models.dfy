/** The API's record types and the range constraints their validators
    enforce. A record is built unchecked; `Validate…` is what constructing
    the pydantic model does: it hands the record back, or raises a
    `ValidationError` when a field is out of its range. Floats are `real`s
    and datetimes are abstract instants (`int`).

    As written, `models.py` does not import: it annotates two fields with
    `Any` (lines 53 and 78) but imports only `Dict`, `List`, `Optional`
    and `Literal`, so loading it raises `NameError`. The records here are
    the classes as evidently intended. */
module Models {
  import opened Wrappers

  /** Status of an asynchronous task: a string enumeration. */
  datatype TaskStatus = Pending | Started | Retry | Failure | Success

  /** The string value of each member. */
  function StatusValue(s: TaskStatus): string {
    match s
    case Pending => "pending"
    case Started => "started"
    case Retry => "retry"
    case Failure => "failure"
    case Success => "success"
  }

  /** `TaskStatus(v)`: the member whose value is `v`, if any. */
  function StatusFromValue(v: string): (r: Option<TaskStatus>)
    ensures r.Some? ==> StatusValue(r.value) == v
  {
    if v == "pending" then Some(Pending)
    else if v == "started" then Some(Started)
    else if v == "retry" then Some(Retry)
    else if v == "failure" then Some(Failure)
    else if v == "success" then Some(Success)
    else None
  }

  const StatusValues: set<string> := {"pending", "started", "retry", "failure", "success"}

  /** Looking a member up by its own value finds it. */
  lemma StatusRoundTrip(s: TaskStatus)
    ensures StatusFromValue(StatusValue(s)) == Some(s)
  {
  }

  /** The enumeration has exactly the five values, and no other string names a member. */
  lemma StatusValuesExactly(v: string)
    ensures StatusFromValue(v).Some? <==> v in StatusValues
    ensures |StatusValues| == 5
  {
  }

  function ValidationError(field: string): string {
    "ValidationError: " + field
  }

  // ---- PromptRequest ----------------------------------------------------------

  datatype PromptRequest = PromptRequest(
    requirements: string,
    maxIterations: Option<int>,
    temperature: Option<real>)

  /** The temperature, when given, is a sampling temperature in [0, 2]. */
  predicate ValidRequest(r: PromptRequest) {
    r.temperature.None? || (0.0 <= r.temperature.value <= 2.0)
  }

  function ValidateRequest(r: PromptRequest): (v: Reply<PromptRequest>)
    ensures v.Ok? <==> (r.temperature.None? || 0.0 <= r.temperature.value <= 2.0)
    ensures v.Ok? ==> v.value == r
  {
    if ValidRequest(r) then Ok(r) else Raised(ValidationError("temperature"))
  }

  // ---- PromptEvaluation ---------------------------------------------------------

  datatype PromptEvaluation = PromptEvaluation(
    score: real,
    feedback: map<string, string>,
    suggestions: seq<string>)

  predicate ValidEvaluation(e: PromptEvaluation) {
    0.0 <= e.score <= 1000.0
  }

  function ValidateEvaluation(e: PromptEvaluation): (v: Reply<PromptEvaluation>)
    ensures v.Ok? <==> 0.0 <= e.score <= 1000.0
    ensures v.Ok? ==> v.value == e
  {
    if ValidEvaluation(e) then Ok(e) else Raised(ValidationError("score"))
  }

  // ---- PromptIteration ----------------------------------------------------------

  datatype PromptIteration = PromptIteration(
    iteration: int,
    prompt: string,
    score: real,
    timestamp: int,
    evaluation: PromptEvaluation)

  /** Iterations count from 1, the score is in [0, 1000], and the nested
      evaluation was itself validated when it was built. */
  predicate ValidIteration(i: PromptIteration) {
    i.iteration >= 1 && 0.0 <= i.score <= 1000.0 && ValidEvaluation(i.evaluation)
  }

  function ValidateIteration(i: PromptIteration): (v: Reply<PromptIteration>)
    ensures v.Ok? <==> (i.iteration >= 1 && 0.0 <= i.score <= 1000.0 && 0.0 <= i.evaluation.score <= 1000.0)
    ensures v.Ok? ==> v.value == i
  {
    if i.iteration < 1 then Raised(ValidationError("iteration"))
    else if !(0.0 <= i.score <= 1000.0) then Raised(ValidationError("score"))
    else if !ValidEvaluation(i.evaluation) then Raised(ValidationError("evaluation.score"))
    else Ok(i)
  }

  // ---- PromptResponse -----------------------------------------------------------

  datatype PromptResponse = PromptResponse(
    taskId: string,
    status: TaskStatus,
    progress: real,
    result: Option<map<string, string>>,
    error: Option<string>,
    createdAt: int,
    updatedAt: int)

  /** Progress is a fraction in [0, 1]; `result` and `error` are free to be absent. */
  predicate ValidResponse(r: PromptResponse) {
    0.0 <= r.progress <= 1.0
  }

  function ValidateResponse(r: PromptResponse): (v: Reply<PromptResponse>)
    ensures v.Ok? <==> 0.0 <= r.progress <= 1.0
    ensures v.Ok? ==> v.value == r
  {
    if ValidResponse(r) then Ok(r) else Raised(ValidationError("progress"))
  }

  // ---- CacheStats ---------------------------------------------------------------

  datatype CacheStats = CacheStats(hits: int, misses: int, size: int, maxSize: int, hitRatio: real)

  predicate ValidCacheStats(c: CacheStats) {
    c.hits >= 0 && c.misses >= 0 && c.size >= 0 && c.maxSize >= 0 && 0.0 <= c.hitRatio <= 1.0
  }

  function ValidateCacheStats(c: CacheStats): (v: Reply<CacheStats>)
    ensures v.Ok? <==> (c.hits >= 0 && c.misses >= 0 && c.size >= 0 && c.maxSize >= 0
                        && 0.0 <= c.hitRatio <= 1.0)
    ensures v.Ok? ==> v.value == c
  {
    if c.hits < 0 then Raised(ValidationError("hits"))
    else if c.misses < 0 then Raised(ValidationError("misses"))
    else if c.size < 0 then Raised(ValidationError("size"))
    else if c.maxSize < 0 then Raised(ValidationError("max_size"))
    else if !(0.0 <= c.hitRatio <= 1.0) then Raised(ValidationError("hit_ratio"))
    else Ok(c)
  }

  // ---- TaskMetrics --------------------------------------------------------------

  datatype TaskMetrics = TaskMetrics(
    taskId: string,
    durationSeconds: real,
    iterations: int,
    finalScore: real,
    cacheHits: int,
    cacheMisses: int,
    createdAt: int,
    completedAt: Option<int>)

  predicate ValidMetrics(m: TaskMetrics) {
    m.durationSeconds >= 0.0 && m.iterations >= 0 && 0.0 <= m.finalScore <= 1000.0
    && m.cacheHits >= 0 && m.cacheMisses >= 0
  }

  function ValidateMetrics(m: TaskMetrics): (v: Reply<TaskMetrics>)
    ensures v.Ok? <==> (m.durationSeconds >= 0.0 && m.iterations >= 0 && 0.0 <= m.finalScore <= 1000.0
                        && m.cacheHits >= 0 && m.cacheMisses >= 0)
    ensures v.Ok? ==> v.value == m
  {
    if m.durationSeconds < 0.0 then Raised(ValidationError("duration_seconds"))
    else if m.iterations < 0 then Raised(ValidationError("iterations"))
    else if !(0.0 <= m.finalScore <= 1000.0) then Raised(ValidationError("final_score"))
    else if m.cacheHits < 0 then Raised(ValidationError("cache_hits"))
    else if m.cacheMisses < 0 then Raised(ValidationError("cache_misses"))
    else Ok(m)
  }
}
