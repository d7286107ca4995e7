/** `PromptEvaluator.evaluate_prompt`: asks the language model to grade a
    prompt, parses its reply with `BaseAgent.parse_evaluation` and clamps
    the score into [0, 1000]. The model call is a function parameter from
    the messages and the temperature to the reply text. */
module PromptEvaluator {
  import opened BaseAgent
  import opened Text

  const EvaluationRequest: string := "Please evaluate this system prompt and provide your score and feedback."

  /** `max(0, min(1000, s))` */
  function ClampScore(s: int): (r: int)
    ensures 0 <= r <= 1000
    ensures 0 <= s <= 1000 ==> r == s
    ensures s > 1000 ==> r == 1000
    ensures s < 0 ==> r == 0
  {
    if s < 0 then 0 else if s > 1000 then 1000 else s
  }

  /** Clamping keeps the order of scores and leaves a clamped score alone. */
  lemma ClampMonotone(a: int, b: int)
    requires a <= b
    ensures ClampScore(a) <= ClampScore(b)
    ensures ClampScore(ClampScore(a)) == ClampScore(a)
  {
  }

  /** What the evaluator makes of the model's reply. */
  function EvaluateReply(reply: string): (r: Evaluation)
    ensures 0 <= r.score <= 1000
    ensures r.score == ClampScore(Parse(reply).score)
    ensures r.feedback == Parse(reply).feedback && r.suggestions == Parse(reply).suggestions
  {
    var e := Parse(reply);
    e.(score := ClampScore(e.score))
  }

  /** The system message carries the evaluation template filled with the
      prompt; the user message is the fixed request. */
  function EvaluationMessages(template: string -> string, prompt: string): (ms: seq<Message>)
    ensures |ms| == 2
    ensures ms[0] == Message("system", template(prompt))
    ensures ms[1] == Message("user", EvaluationRequest)
  {
    [Message("system", template(prompt)), Message("user", EvaluationRequest)]
  }

  function EvaluatePrompt(prompt: string, template: string -> string, temperature: real,
                          llm: (seq<Message>, real) -> string): (r: Evaluation)
    ensures r == EvaluateReply(llm(EvaluationMessages(template, prompt), temperature))
    ensures 0 <= r.score <= 1000
  {
    EvaluateReply(llm(EvaluationMessages(template, prompt), temperature))
  }

  /** Once the reply is known nothing else is consulted: two prompts whose
      replies agree get the same evaluation. */
  lemma EvaluationDependsOnlyOnReply(p: string, q: string, template: string -> string,
                                     temperature: real, llm: (seq<Message>, real) -> string)
    requires llm(EvaluationMessages(template, p), temperature) == llm(EvaluationMessages(template, q), temperature)
    ensures EvaluatePrompt(p, template, temperature, llm) == EvaluatePrompt(q, template, temperature, llm)
  {
  }

  /** An empty reply evaluates to score 0 with no feedback. */
  lemma EmptyReplyEvaluation()
    ensures EvaluateReply("") == DefaultEvaluation
  {
    EmptyTextGivesDefaults();
  }

  /** A reply `SCORE: n` evaluates to `n` clamped into [0, 1000]. */
  lemma ScoreReplyEvaluation(n: int)
    ensures EvaluateReply("SCORE: " + IntToString(n)).score == ClampScore(n)
  {
    ParseScoreLine(n);
  }
}
