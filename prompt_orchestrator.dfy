/** `PromptOrchestrator.generate_prompt`: a cached fast path, then the
    evaluate / record / refine loop that drives the architect and the
    evaluator, and the final write of the result to the cache; plus the
    memoised evaluation and the payload `save_results` writes.

    The language models behind the architect and the evaluator are the
    functions they are built with; timestamps are one string per call; the
    task id the queue would generate and the hash of the requirements are
    inputs. */
module PromptOrchestrator {
  import opened Wrappers
  import opened Text
  import opened Json
  import opened BaseAgent
  import PromptEvaluator
  import PromptArchitect
  import Cache
  import Models
  import Tasks

  /** The results stay cached for a day. */
  const ResultTtl: int := 86400

  /** One entry of `current_run_results`. */
  datatype Record = Record(iteration: int, prompt: string, score: int, evaluation: Evaluation)

  /** One call of the progress callback. */
  datatype Progress = Progress(taskId: string, iteration: int, status: string,
                               currentScore: Option<int>, details: Option<Record>)

  /** What a run returns when it did not come from the cache. */
  datatype Generation = Generation(taskId: string, finalPrompt: string, finalScore: int,
                                   iterations: seq<Record>, requirements: string)

  /** `max_iterations or MAX_ITERATIONS`: a missing or zero request falls
      back to the configured budget. */
  function Budget(requested: Option<int>, configured: Option<int>): (b: Option<int>)
    ensures requested.Some? && requested.value != 0 ==> b == requested
    ensures requested.None? || requested.value == 0 ==> b == configured
  {
    if requested.Some? && requested.value != 0 then requested else configured
  }

  /** `task_id or str(uuid4())` */
  function TaskIdOf(given: Option<string>, generated: string): (id: string)
    ensures given.Some? && given.value != "" ==> id == given.value
    ensures given.None? || given.value == "" ==> id == generated
  {
    if given.Some? && given.value != "" then given.value else generated
  }

  /** The key the run's result is cached under: `prompt_gen:` and the
      decimal hash of the requirements. */
  function ResultKey(hash: int): string {
    "prompt_gen:" + IntToString(hash)
  }

  /** Requirements whose hashes differ get different result keys, so one
      run never answers from another's entry unless the hashes collide. */
  lemma ResultKeyInjective(a: int, b: int)
    requires ResultKey(a) == ResultKey(b)
    ensures a == b
  {
    assert IntToString(a) == ResultKey(a)[|"prompt_gen:"|..];
    assert IntToString(b) == ResultKey(b)[|"prompt_gen:"|..];
    IntToStringInjective(a, b);
  }

  // ---- the two collaborators, as functions of their configuration --------------

  /** What `generate_initial_prompt` answers at architect version `v`. */
  function InitialPrompt(a: PromptArchitect.PromptArchitect, v: int, requirements: string): string {
    Strip(a.llm([Message("system", a.template(v, PromptArchitect.NoFeedback, requirements))], a.temperature))
  }

  /** What `refine_prompt` answers once it has moved to version `v`. */
  function Refined(a: PromptArchitect.PromptArchitect, v: int, current: string, e: Evaluation,
                   requirements: string): string {
    Strip(a.llm(a.RefineMessages(v, current, e, requirements), a.temperature))
  }

  // ---- the loop, as a function ------------------------------------------------------

  /** The orchestrator's evaluation of one prompt. */
  function Eval(o: PromptOrchestrator, prompt: string): Evaluation {
    o.evaluate(prompt)
  }

  /** The orchestrator's refinement of one prompt. */
  function RefineOf(o: PromptOrchestrator, version: int, current: string, e: Evaluation, requirements: string): string {
    o.refine(version, current, e, requirements)
  }

  /** The records of the iterations from `done + 1` on, starting from
      `prompt` at architect version `version`: evaluate, record, stop at
      the target score or at the budget, otherwise refine and go on. */
  function Trace(o: PromptOrchestrator, requirements: string, budget: int, done: nat,
                 prompt: string, version: int): (rs: seq<Record>)
    requires done < budget
    ensures |rs| >= 1 && rs[0].prompt == prompt && rs[0].iteration == done + 1
    decreases budget - done
  {
    var e := Eval(o, prompt);
    var r := Record(done + 1, prompt, e.score, e);
    if e.score >= o.minAcceptableScore || done + 1 >= budget then [r]
    else [r] + Trace(o, requirements, budget, done + 1, RefineOf(o, version + 1, prompt, e, requirements), version + 1)
  }

  /** One unfolding of `Trace`. */
  lemma TraceStep(o: PromptOrchestrator, requirements: string, budget: int, done: nat, prompt: string, version: int)
    requires done < budget
    ensures var e := Eval(o, prompt);
      Trace(o, requirements, budget, done, prompt, version) ==
        if e.score >= o.minAcceptableScore || done + 1 >= budget then [Record(done + 1, prompt, e.score, e)]
        else [Record(done + 1, prompt, e.score, e)]
             + Trace(o, requirements, budget, done + 1, RefineOf(o, version + 1, prompt, e, requirements), version + 1)
  {
  }

  /** The records so far followed by the rest of the run are the whole
      run, one record further on. */
  lemma TraceSnoc(full: seq<Record>, rs: seq<Record>, r: Record, rest: seq<Record>, tail: seq<Record>)
    requires rs + rest == full && rest == [r] + tail
    ensures (rs + [r]) + tail == full
  {
    assert rs + ([r] + tail) == (rs + [r]) + tail;
  }

  /** The loop's bound, its numbering and what each record holds: at most
      `budget - done` iterations, numbered on from `done + 1`, each the
      evaluation of its own prompt. */
  lemma {:induction false} TraceShape(o: PromptOrchestrator, requirements: string, budget: int, done: nat,
                                      prompt: string, version: int)
    requires done < budget && o.ScoresInRange()
    ensures |Trace(o, requirements, budget, done, prompt, version)| <= budget - done
    ensures forall k :: 0 <= k < |Trace(o, requirements, budget, done, prompt, version)| ==>
      Trace(o, requirements, budget, done, prompt, version)[k].iteration == done + k + 1
    ensures forall r :: r in Trace(o, requirements, budget, done, prompt, version) ==>
      r.evaluation == Eval(o, r.prompt) && r.score == r.evaluation.score && 0 <= r.score <= 1000
    decreases budget - done
  {
    var e := Eval(o, prompt);
    if !(e.score >= o.minAcceptableScore || done + 1 >= budget) {
      TraceShape(o, requirements, budget, done + 1, RefineOf(o, version + 1, prompt, e, requirements), version + 1);
    }
  }

  /** Where the loop stops: every record but the last is below the target
      and is followed by the refinement of its own prompt and evaluation
      at the next architect version; the last one meets the target or
      exhausts the budget. */
  lemma {:induction false} TraceStops(o: PromptOrchestrator, requirements: string, budget: int, done: nat,
                                      prompt: string, version: int)
    requires done < budget
    ensures var rs := Trace(o, requirements, budget, done, prompt, version);
      forall k :: 0 <= k < |rs| - 1 ==>
        rs[k].score < o.minAcceptableScore
        && rs[k + 1].prompt == RefineOf(o, version + k + 1, rs[k].prompt, rs[k].evaluation, requirements)
    ensures var rs := Trace(o, requirements, budget, done, prompt, version);
      rs[|rs| - 1].score >= o.minAcceptableScore || done + |rs| == budget
    decreases budget - done
  {
    var e := Eval(o, prompt);
    if !(e.score >= o.minAcceptableScore || done + 1 >= budget) {
      var next := RefineOf(o, version + 1, prompt, e, requirements);
      TraceStops(o, requirements, budget, done + 1, next, version + 1);
      var rest := Trace(o, requirements, budget, done + 1, next, version + 1);
      assert Trace(o, requirements, budget, done, prompt, version) == [Record(done + 1, prompt, e.score, e)] + rest;
    }
  }

  /** A first evaluation at or above the target ends the run after one
      iteration, whatever the budget. */
  lemma TargetMetAtOnce(o: PromptOrchestrator, requirements: string, budget: int, prompt: string, version: int)
    requires 0 < budget && Eval(o, prompt).score >= o.minAcceptableScore
    ensures Trace(o, requirements, budget, 0, prompt, version) == [Record(1, prompt, Eval(o, prompt).score, Eval(o, prompt))]
  {
  }

  /** Each record meets the range constraints of the `PromptIteration` API
      record: iterations count from 1 and scores lie in [0, 1000]. */
  lemma RecordsValidate(o: PromptOrchestrator, requirements: string, budget: int, prompt: string, version: int,
                        k: nat, stamp: int, feedback: map<string, string>)
    requires 0 < budget && o.ScoresInRange() && k < |Trace(o, requirements, budget, 0, prompt, version)|
    ensures var r := Trace(o, requirements, budget, 0, prompt, version)[k];
      Models.ValidateIteration(Models.PromptIteration(
        r.iteration, r.prompt, r.score as real, stamp,
        Models.PromptEvaluation(r.score as real, feedback, r.evaluation.suggestions))).Ok?
  {
    TraceShape(o, requirements, budget, 0, prompt, version);
    var rs := Trace(o, requirements, budget, 0, prompt, version);
    assert rs[k] in rs;
  }

  /** The prompts of a run's records, in order: the prompts the evaluator
      was asked about. */
  function Prompts(rs: seq<Record>): (ps: seq<string>)
    ensures |ps| == |rs|
  {
    if rs == [] then [] else Prompts(rs[..|rs| - 1]) + [rs[|rs| - 1].prompt]
  }

  /** The `k`-th prompt scored is the `k`-th record's. */
  lemma {:induction false} PromptsAt(rs: seq<Record>, k: nat)
    requires k < |rs|
    ensures Prompts(rs)[k] == rs[k].prompt
    decreases |rs|
  {
    if k < |rs| - 1 {
      PromptsAt(rs[..|rs| - 1], k);
    }
  }

  lemma PromptsSnoc(rs: seq<Record>, r: Record)
    ensures Prompts(rs + [r]) == Prompts(rs) + [r.prompt]
  {
    assert (rs + [r])[..|rs|] == rs;
  }

  // ---- progress events ----------------------------------------------------------------

  /** The two callback calls of one iteration. */
  function ProgressOf(taskId: string, r: Record): seq<Progress> {
    [Progress(taskId, r.iteration, "EVALUATING", None, None),
     Progress(taskId, r.iteration, "EVALUATED", Some(r.score), Some(r))]
  }

  /** Every callback call of a run, in order. */
  function Events(taskId: string, rs: seq<Record>): (es: seq<Progress>)
    ensures |es| == 2 * |rs|
  {
    if rs == [] then [] else Events(taskId, rs[..|rs| - 1]) + ProgressOf(taskId, rs[|rs| - 1])
  }

  lemma EventsSnoc(taskId: string, rs: seq<Record>, r: Record)
    ensures Events(taskId, rs + [r]) == Events(taskId, rs) + ProgressOf(taskId, r)
  {
    assert (rs + [r])[..|rs|] == rs;
  }

  /** What a run hands its callback: every event, or none without a callback. */
  function Emitted(callback: bool, taskId: string, rs: seq<Record>): (es: seq<Progress>)
    ensures |es| == if callback then 2 * |rs| else 0
  {
    if callback then Events(taskId, rs) else []
  }

  lemma EmittedSnoc(callback: bool, taskId: string, rs: seq<Record>, r: Record)
    ensures Emitted(callback, taskId, rs + [r]) == Emitted(callback, taskId, rs) + Emitted(callback, taskId, [r])
  {
    EventsSnoc(taskId, rs, r);
    EventsSnoc(taskId, [], r);
    assert [] + [r] == [r];
  }

  /** The progress log stays the events of the records so far when one
      more record's events are appended. */
  lemma ProgressSnoc(p0: seq<Progress>, before: seq<Progress>, after: seq<Progress>, callback: bool, taskId: string,
                     rs: seq<Record>, r: Record)
    requires before == p0 + Emitted(callback, taskId, rs)
    requires after == before + Emitted(callback, taskId, [r])
    ensures after == p0 + Emitted(callback, taskId, rs + [r])
  {
    EmittedSnoc(callback, taskId, rs, r);
  }

  /** The callback is called twice per iteration: first `EVALUATING` with
      no score, then `EVALUATED` with the score and the record itself. */
  lemma {:induction false} EventsAt(taskId: string, rs: seq<Record>, k: nat)
    requires k < |rs|
    ensures Events(taskId, rs)[2 * k] == Progress(taskId, rs[k].iteration, "EVALUATING", None, None)
    ensures Events(taskId, rs)[2 * k + 1] == Progress(taskId, rs[k].iteration, "EVALUATED", Some(rs[k].score), Some(rs[k]))
    decreases |rs|
  {
    var init := rs[..|rs| - 1];
    if k < |rs| - 1 {
      EventsAt(taskId, init, k);
      assert init[k] == rs[k];
    }
  }

  // ---- the result as the dict it is cached as -----------------------------------------

  function CategoryValue(c: CategoryFeedback): Value {
    Object([Field("score", Int(c.score)), Field("feedback", Str(c.note))])
  }

  function FeedbackFields(fb: Feedback): (fs: seq<Field>)
    ensures |fs| == |fb|
    ensures RepresentableFields(fs)
  {
    if fb == [] then []
    else
      var rest := FeedbackFields(fb[1..]);
      var fs := [Field(fb[0].0, CategoryValue(fb[0].1))] + rest;
      FieldsRepresentable(CategoryValue(fb[0].1).fields);
      assert fs[1..] == rest;
      fs
  }

  function Strings(ss: seq<string>): (vs: seq<Value>)
    ensures |vs| == |ss|
    ensures RepresentableItems(vs)
  {
    if ss == [] then []
    else
      var rest := Strings(ss[1..]);
      assert ([Str(ss[0])] + rest)[1..] == rest;
      [Str(ss[0])] + rest
  }

  /** The dict `evaluate_prompt` returns. */
  function EvaluationValue(e: Evaluation): (v: Value)
    ensures Representable(v)
  {
    var fs := [Field("score", Int(e.score)),
               Field("feedback", Object(FeedbackFields(e.feedback))),
               Field("suggestions", List(Strings(e.suggestions)))];
    FieldsRepresentable(fs);
    Object(fs)
  }

  function RecordValue(r: Record, stamp: string): (v: Value)
    ensures Representable(v)
  {
    var fs := [Field("iteration", Int(r.iteration)), Field("prompt", Str(r.prompt)),
               Field("score", Int(r.score)), Field("feedback", EvaluationValue(r.evaluation)),
               Field("timestamp", Str(stamp))];
    FieldsRepresentable(fs);
    Object(fs)
  }

  function RecordValues(rs: seq<Record>, stamp: string): (vs: seq<Value>)
    ensures |vs| == |rs|
    ensures RepresentableItems(vs)
  {
    if rs == [] then []
    else
      var rest := RecordValues(rs[1..], stamp);
      assert ([RecordValue(rs[0], stamp)] + rest)[1..] == rest;
      [RecordValue(rs[0], stamp)] + rest
  }

  /** The final result dict. It is always JSON-representable, so the final
      `cache.set` never raises. */
  function GenerationValue(g: Generation, stamp: string): (v: Value)
    ensures Representable(v)
    ensures v.Object? && FieldValue(v.fields, "iterations") == Some(List(RecordValues(g.iterations, stamp)))
  {
    var fs := [Field("task_id", Str(g.taskId)), Field("final_prompt", Str(g.finalPrompt)),
               Field("final_score", Int(g.finalScore)), Field("iterations", List(RecordValues(g.iterations, stamp))),
               Field("requirements", Str(g.requirements)), Field("completed_at", Str(stamp))];
    FieldsRepresentable(fs);
    FieldValueAt(fs, "iterations", 3);
    Object(fs)
  }

  /** The result of a run whose records are `rs`: the final prompt and
      score are those of the last record. */
  function Final(taskId: string, rs: seq<Record>, requirements: string): (g: Generation)
    requires |rs| >= 1
    ensures g.finalPrompt == rs[|rs| - 1].prompt && g.finalScore == rs[|rs| - 1].score
    ensures g.iterations == rs && g.taskId == taskId && g.requirements == requirements
  {
    Generation(taskId, rs[|rs| - 1].prompt, rs[|rs| - 1].score, rs, requirements)
  }

  /** The run's outcome: `final_prompt` and `final_score` come from the
      last iteration, whose number is the number of iterations; every
      earlier iteration scored below the target; the last one met the
      target or was the `budget`-th. So the target was reached at some
      iteration exactly when the final score reaches it. */
  lemma FinalRecord(o: PromptOrchestrator, requirements: string, budget: int, prompt: string, version: int,
                    id: string)
    requires 0 < budget && o.ScoresInRange()
    ensures var rs := Trace(o, requirements, budget, 0, prompt, version);
      var g := Final(id, rs, requirements);
      && rs[|rs| - 1].iteration == |rs|
      && g.finalPrompt == rs[|rs| - 1].prompt && g.finalScore == rs[|rs| - 1].score
      && (g.finalScore >= o.minAcceptableScore || |rs| == budget)
      && (forall k :: 0 <= k < |rs| - 1 ==> rs[k].score < o.minAcceptableScore)
      && ((exists k :: 0 <= k < |rs| && rs[k].score >= o.minAcceptableScore) <==> g.finalScore >= o.minAcceptableScore)
  {
    TraceShape(o, requirements, budget, 0, prompt, version);
    TraceStops(o, requirements, budget, 0, prompt, version);
  }

  // ---- save_results ---------------------------------------------------------------------

  /** The dict `save_results` writes: the run's `iterations`, the
      configuration, a timestamp and two counters that are never set (so
      0). Without an `iterations` key it raises `KeyError`. */
  function SavePayload(output: Value, model: string, minAcceptableScore: int, maxIterations: Option<int>,
                       stamp: string): (r: Reply<Value>)
    ensures r.Ok? <==> output.Object? && FieldValue(output.fields, "iterations").Some?
    ensures r.Ok? ==> r.value.Object? && FieldValue(r.value.fields, "results") == FieldValue(output.fields, "iterations")
    ensures r.Ok? ==> FieldKeys(r.value.fields) == ["results", "config", "timestamp", "cache_hits", "cache_misses"]
    ensures r.Ok? ==> FieldValue(r.value.fields, "config") == Some(Object([
              Field("model", Str(model)),
              Field("min_acceptable_score", Int(minAcceptableScore)),
              Field("max_iterations", if maxIterations.Some? then Int(maxIterations.value) else Null)]))
    ensures r.Ok? ==> FieldValue(r.value.fields, "timestamp") == Some(Str(stamp))
    ensures r.Ok? ==> FieldValue(r.value.fields, "cache_hits") == Some(Int(0))
    ensures r.Ok? ==> FieldValue(r.value.fields, "cache_misses") == Some(Int(0))
  {
    if !output.Object? then Raised("TypeError: generation_output is not a dict")
    else
      match FieldValue(output.fields, "iterations")
      case None => Raised("KeyError: 'iterations'")
      case Some(iterations) =>
        var fs := [
          Field("results", iterations),
          Field("config", Object([
            Field("model", Str(model)),
            Field("min_acceptable_score", Int(minAcceptableScore)),
            Field("max_iterations", if maxIterations.Some? then Int(maxIterations.value) else Null)])),
          Field("timestamp", Str(stamp)),
          Field("cache_hits", Int(0)),
          Field("cache_misses", Int(0))];
        assert FieldKeys(fs[4..]) == ["cache_misses"];
        assert FieldKeys(fs[3..]) == ["cache_hits"] + FieldKeys(fs[4..]);
        assert FieldKeys(fs[2..]) == ["timestamp"] + FieldKeys(fs[3..]);
        assert FieldKeys(fs[1..]) == ["config"] + FieldKeys(fs[2..]);
        FieldValueAt(fs, "config", 1);
        FieldValueAt(fs, "timestamp", 2);
        FieldValueAt(fs, "cache_hits", 3);
        FieldValueAt(fs, "cache_misses", 4);
        Ok(Object(fs))
  }

  /** The payload of a generated result holds exactly that run's records. */
  lemma PayloadCopiesIterations(g: Generation, stamp: string, model: string, minAcceptableScore: int,
                                maxIterations: Option<int>, later: string)
    ensures var r := SavePayload(GenerationValue(g, stamp), model, minAcceptableScore, maxIterations, later);
      r.Ok? && FieldValue(r.value.fields, "results") == Some(List(RecordValues(g.iterations, stamp)))
  {
  }

  /** A result written by a run is what the next run with the same
      requirements finds, for the day it stays cached: it reads back as
      written and, being a non-empty dict, it is truthy, so that run takes
      the fast path. */
  lemma {:induction false} NextRunIsCacheHit(store: Cache.Store, k: string, g: Generation, stamp: string,
                                             now: int, later: int)
    requires now <= later < now + ResultTtl
    ensures var v := GenerationValue(g, stamp);
      Cached(Cache.StoreSet(store, k, Encode(v), ResultTtl, now), k, later, false) == v && Truthy(v)
  {
    Cache.MemoisedResult(store, k, GenerationValue(g, stamp), ResultTtl, now, later);
  }

  /** Whether the cache's `get` finds an entry under `k`. */
  predicate Found(store: Cache.Store, k: string, now: int, getFault: bool) {
    !getFault && Cache.StoreGet(store, k, now).Some?
  }

  /** What the cache's `get` answers for `k`, with `None` as its default. */
  function Cached(store: Cache.Store, k: string, now: int, getFault: bool): (v: Value)
    ensures !Found(store, k, now, getFault) ==> v == Null
  {
    if Found(store, k, now, getFault) then Deserialize(Cache.StoreGet(store, k, now).value) else Null
  }

  // ---- the orchestrator ----------------------------------------------------------------

  class PromptOrchestrator {
    const minAcceptableScore: int
    const maxIterations: Option<int>
    const model: string
    /** Python's `hash` of a string; it differs between processes. */
    const hash: string -> int
    /** The evaluator, as `evaluate_prompt` answers for each prompt. */
    const evaluate: string -> Evaluation
    const architect: PromptArchitect.PromptArchitect
    /** What the architect's `refine_prompt` answers at a version. */
    const refine: (int, string, Evaluation, string) -> string
    const cache: Cache.CacheManager
    const taskManager: Tasks.TaskManager
    /** The calls the progress callback has received. */
    var progress: seq<Progress>
    /** The prompts the evaluator has been asked to score, in order. */
    ghost var evaluated: seq<string>
    /** The calls made to the architect: initial generations and
        refinements. */
    ghost var architectCalls: nat

    constructor (minAcceptableScore: int, maxIterations: Option<int>, model: string, hash: string -> int,
                 evalTemplate: string -> string, evalTemperature: real, evalLlm: (seq<Message>, real) -> string,
                 architect: PromptArchitect.PromptArchitect, cache: Cache.CacheManager,
                 taskManager: Tasks.TaskManager)
      ensures this.minAcceptableScore == minAcceptableScore && this.maxIterations == maxIterations
      ensures this.model == model && this.hash == hash
      ensures forall p :: Eval(this, p) == PromptEvaluator.EvaluatePrompt(p, evalTemplate, evalTemperature, evalLlm)
      ensures ScoresInRange()
      ensures this.architect == architect && this.cache == cache && this.taskManager == taskManager
      ensures progress == [] && evaluated == [] && architectCalls == 0
      ensures Wired()
    {
      this.minAcceptableScore := minAcceptableScore;
      this.maxIterations := maxIterations;
      this.model := model;
      this.hash := hash;
      evaluate := (p: string) => PromptEvaluator.EvaluatePrompt(p, evalTemplate, evalTemperature, evalLlm);
      this.architect := architect;
      refine := (v: int, current: string, e: Evaluation, requirements: string) => Refined(architect, v, current, e, requirements);
      this.cache := cache;
      this.taskManager := taskManager;
      progress := [];
      evaluated := [];
      architectCalls := 0;
    }

    /** `refine` is the architect's refinement. */
    ghost predicate Wired() {
      forall v, current, e, requirements {:trigger Refined(architect, v, current, e, requirements)} ::
        RefineOf(this, v, current, e, requirements) == Refined(architect, v, current, e, requirements)
    }

    /** The evaluator clamps its scores into [0, 1000]. */
    ghost predicate ScoresInRange() {
      forall p :: 0 <= Eval(this, p).score <= 1000
    }

    /** `_evaluate_prompt_cached`: the evaluation memoised in the cache for
        a day under `key(prompt)`. A cached value that is not `None` is
        answered as it is; otherwise the prompt is evaluated and the
        evaluation written. */
    method EvaluatePromptCached(prompt: string, key: string -> string, now: int, getFault: bool, setFault: bool)
      returns (r: Value)
      modifies this, cache
      ensures progress == old(progress) && architectCalls == old(architectCalls)
      ensures var k := cache.MakeKey(key(prompt));
        var found := !getFault && Cache.StoreGet(old(cache.store), k, now).Some?;
        var cached := if found then Deserialize(Cache.StoreGet(old(cache.store), k, now).value) else Null;
        if cached != Null then
          r == cached && evaluated == old(evaluated)
          && cache.store == old(cache.store) && cache.stats == Cache.CountGet(old(cache.stats), getFault, found)
        else
          r == EvaluationValue(Eval(this, prompt)) && evaluated == old(evaluated) + [prompt]
          && cache.store == (if setFault then old(cache.store)
                             else Cache.StoreSet(old(cache.store), k, Encode(r), ResultTtl, now))
          && cache.stats == Cache.CountSet(Cache.CountGet(old(cache.stats), getFault, found), true, setFault)
    {
      var f := (p: string) => EvaluationValue(Eval(this, p));
      ghost var k := cache.MakeKey(key(prompt));
      ghost var missed := getFault || Cache.StoreGet(cache.store, k, now).None?
                          || Deserialize(Cache.StoreGet(cache.store, k, now).value) == Null;
      var reply := cache.CacheResult(f, prompt, None, key, None, Some(ResultTtl), now, getFault, setFault);
      if missed {
        evaluated := evaluated + [prompt];
      }
      match reply
      case Ok(v) => r := v;
      case Raised(_) => r := Null;
    }

    /** `get_task_status`: `TaskManager`'s response, passed on as it
        is; neither the cache nor the run state is consulted. */
    function GetTaskStatus(taskId: string, r: Tasks.TaskRecord): (resp: Tasks.StatusResponse)
      ensures resp == taskManager.GetTaskStatus(taskId, r)
      ensures resp.taskId == taskId && resp.status == r.state
      ensures resp.result.Some? <==> r.ready && r.successful
      ensures resp.error.Some? <==> r.ready && !r.successful && r.failed
    {
      taskManager.GetTaskStatus(taskId, r)
    }

    /** `refine_prompt`, seen through `refine`. */
    method RefineStep(current: string, e: Evaluation, requirements: string) returns (next: string)
      requires architect.Valid() && Wired()
      modifies this, architect
      ensures architect.version == old(architect.version) + 1 && architect.Valid()
      ensures next == RefineOf(this, architect.version, current, e, requirements)
      ensures architectCalls == old(architectCalls) + 1
      ensures progress == old(progress) && evaluated == old(evaluated)
    {
      next := architect.RefinePrompt(current, e, requirements);
      architectCalls := architectCalls + 1;
      assert next == Refined(architect, architect.version, current, e, requirements);
    }

    /** One turn of the loop: progress, evaluation, record, progress, the
        two checks, and the refinement when neither stops the loop. */
    method Step(requirements: string, budget: int, taskId: string, callback: bool, done: nat, prompt: string)
      returns (rec: Record, stop: bool, next: string)
      requires done < budget && architect.Valid() && Wired()
      modifies this, architect
      ensures progress == old(progress) + Emitted(callback, taskId, [rec])
      ensures rec.prompt == prompt && evaluated == old(evaluated) + [prompt]
      ensures architectCalls == old(architectCalls) + (if stop then 0 else 1)
      ensures architect.Valid()
      ensures stop ==> architect.version == old(architect.version)
      ensures stop ==> Trace(this, requirements, budget, done, prompt, old(architect.version)) == [rec]
      ensures !stop ==> architect.version == old(architect.version) + 1 && done + 1 < budget
      ensures !stop ==> Trace(this, requirements, budget, done, prompt, old(architect.version)) ==
                        [rec] + Trace(this, requirements, budget, done + 1, next, architect.version)
    {
      ghost var v0 := architect.version;
      TraceStep(this, requirements, budget, done, prompt, v0);
      var iteration := done + 1;
      if callback {
        progress := progress + [Progress(taskId, iteration, "EVALUATING", None, None)];
      }
      var evaluation := Eval(this, prompt);
      evaluated := evaluated + [prompt];
      var score := evaluation.score;
      rec := Record(iteration, prompt, score, evaluation);
      if callback {
        progress := progress + [Progress(taskId, iteration, "EVALUATED", Some(score), Some(rec))];
      }
      if score >= minAcceptableScore {
        return rec, true, prompt;
      }
      if iteration >= budget {
        return rec, true, prompt;
      }
      next := RefineStep(prompt, evaluation, requirements);
      stop := false;
    }

    /** The loop of `generate_prompt`, from the initial prompt on. */
    method Iterate(requirements: string, budget: int, taskId: string, callback: bool, initial: string)
      returns (records: seq<Record>, finalPrompt: string, finalScore: int)
      requires budget >= 1 && architect.Valid() && Wired()
      modifies this, architect
      ensures records == Trace(this, requirements, budget, 0, initial, old(architect.version))
      ensures finalPrompt == records[|records| - 1].prompt && finalScore == records[|records| - 1].score
      ensures architect.version == old(architect.version) + |records| - 1 && architect.Valid()
      ensures progress == old(progress) + Emitted(callback, taskId, records)
      ensures evaluated == old(evaluated) + Prompts(records)
      ensures architectCalls == old(architectCalls) + |records| - 1
    {
      ghost var p0 := progress;
      ghost var e0 := evaluated;
      ghost var c0 := architectCalls;
      ghost var full := Trace(this, requirements, budget, 0, initial, architect.version);
      ghost var v0 := architect.version;
      var prompt := initial;
      var iteration := 0;
      records := [];
      while iteration < budget
        invariant 0 <= iteration < budget && |records| == iteration
        invariant architect.Valid() && architect.version == v0 + iteration
        invariant records + Trace(this, requirements, budget, iteration, prompt, architect.version) == full
        invariant progress == p0 + Emitted(callback, taskId, records)
        invariant evaluated == e0 + Prompts(records) && architectCalls == c0 + iteration
        decreases budget - iteration
      {
        ghost var before := records;
        ghost var v := architect.version;
        ghost var logged := progress;
        var rec, stop, next := Step(requirements, budget, taskId, callback, iteration, prompt);
        ProgressSnoc(p0, logged, progress, callback, taskId, before, rec);
        PromptsSnoc(before, rec);
        records := records + [rec];
        if stop {
          return records, prompt, rec.score;
        }
        TraceSnoc(full, before, rec, Trace(this, requirements, budget, iteration, prompt, v),
                  Trace(this, requirements, budget, iteration + 1, next, architect.version));
        iteration := iteration + 1;
        prompt := next;
      }
      assert false;
    }

    /** The end of `generate_prompt` once the loop is to run: the loop,
        the result built from its records, and the write of that result
        to the cache for a day. */
    method Finish(requirements: string, budget: int, id: string, callback: bool, initial: string,
                  cacheKey: string, now: int, stamp: string, setFault: bool) returns (result: Value)
      requires budget >= 1 && architect.Valid() && Wired()
      modifies this, architect, cache
      ensures var rs := Trace(this, requirements, budget, 0, initial, old(architect.version));
        result == GenerationValue(Final(id, rs, requirements), stamp)
        && architect.version == old(architect.version) + |rs| - 1
        && progress == old(progress) + Emitted(callback, id, rs)
        && evaluated == old(evaluated) + Prompts(rs)
        && architectCalls == old(architectCalls) + |rs| - 1
        && cache.store == (if setFault then old(cache.store)
                           else Cache.StoreSet(old(cache.store), cache.MakeKey(cacheKey), Encode(result), ResultTtl, now))
        && cache.stats == Cache.CountSet(old(cache.stats), true, setFault)
    {
      var records, finalPrompt, finalScore := Iterate(requirements, budget, id, callback, initial);
      result := SaveResult(requirements, id, records, finalPrompt, finalScore, cacheKey, now, stamp, setFault);
    }

    /** The result dict of a run, written to the cache for a day; a store
        error there is swallowed. */
    method SaveResult(requirements: string, id: string, records: seq<Record>, finalPrompt: string, finalScore: int,
                      cacheKey: string, now: int, stamp: string, setFault: bool) returns (result: Value)
      requires |records| >= 1
      requires finalPrompt == records[|records| - 1].prompt && finalScore == records[|records| - 1].score
      modifies cache
      ensures result == GenerationValue(Final(id, records, requirements), stamp)
      ensures cache.store == (if setFault then old(cache.store)
                              else Cache.StoreSet(old(cache.store), cache.MakeKey(cacheKey), Encode(result), ResultTtl, now))
      ensures cache.stats == Cache.CountSet(old(cache.stats), true, setFault)
    {
      result := GenerationValue(Generation(id, finalPrompt, finalScore, records, requirements), stamp);
      var written := cache.Set(cacheKey, result, Some(ResultTtl), now, setFault);
    }

    /** `generate_prompt`. A truthy cached result for the requirements is
        answered as it is and nothing else happens. Otherwise the initial
        prompt is generated and the loop runs; with a budget of 0 or less
        it does not run and reading the unset `score` raises
        `UnboundLocalError`; else the result is written to the cache for a
        day (a store error there is swallowed) and answered. */
    method GeneratePrompt(requirements: string, requested: Option<int>, taskId: Option<string>,
                          generatedId: string, callback: bool, now: int, stamp: string,
                          getFault: bool, setFault: bool) returns (r: Reply<Value>)
      requires architect.Valid() && Wired()
      requires Budget(requested, maxIterations).Some?
      modifies this, architect, cache
      ensures var cached := Cached(old(cache.store), cache.MakeKey(ResultKey(hash(requirements))), now, getFault);
        Truthy(cached) ==>
          r == Ok(cached) && architect.version == old(architect.version) && progress == old(progress)
          && evaluated == old(evaluated) && architectCalls == old(architectCalls)
          && cache.store == old(cache.store) && cache.stats == Cache.CountGet(old(cache.stats), getFault, Found(old(cache.store), cache.MakeKey(ResultKey(hash(requirements))), now, getFault))
      ensures var cached := Cached(old(cache.store), cache.MakeKey(ResultKey(hash(requirements))), now, getFault);
        !Truthy(cached) && Budget(requested, maxIterations).value <= 0 ==>
          r.Raised? && architect.version == old(architect.version) && progress == old(progress)
          && evaluated == old(evaluated) && architectCalls == old(architectCalls) + 1
          && cache.store == old(cache.store) && cache.stats == Cache.CountGet(old(cache.stats), getFault, Found(old(cache.store), cache.MakeKey(ResultKey(hash(requirements))), now, getFault))
      ensures var k := cache.MakeKey(ResultKey(hash(requirements)));
        var budget := Budget(requested, maxIterations).value;
        !Truthy(Cached(old(cache.store), k, now, getFault)) && budget >= 1 ==>
          var rs := Trace(this, requirements, budget, 0, InitialPrompt(architect, old(architect.version), requirements), old(architect.version));
          var result := GenerationValue(Final(TaskIdOf(taskId, generatedId), rs, requirements), stamp);
          r == Ok(result)
          && architect.version == old(architect.version) + |rs| - 1
          && progress == old(progress) + Emitted(callback, TaskIdOf(taskId, generatedId), rs)
          && evaluated == old(evaluated) + Prompts(rs) && architectCalls == old(architectCalls) + |rs|
          && cache.store == (if setFault then old(cache.store)
                             else Cache.StoreSet(old(cache.store), k, Encode(result), ResultTtl, now))
          && cache.stats == Cache.CountSet(Cache.CountGet(old(cache.stats), getFault, Found(old(cache.store), k, now, getFault)), true, setFault)
    {
      var budget := Budget(requested, maxIterations).value;
      var id := TaskIdOf(taskId, generatedId);
      var cacheKey := ResultKey(hash(requirements));
      var cached := cache.Get(cacheKey, Null, now, getFault);
      if Truthy(cached) {
        return Ok(cached);
      }
      var initial := architect.GenerateInitialPrompt(requirements);
      architectCalls := architectCalls + 1;
      if budget <= 0 {
        return Raised("UnboundLocalError: score");
      }
      var result := Finish(requirements, budget, id, callback, initial, cacheKey, now, stamp, setFault);
      r := Ok(result);
    }
  }
}
