/** `PromptArchitect`: generates a system prompt from the requirements and
    refines it from an evaluation. It keeps a version counter that each
    refinement advances; the feedback it shows the language model is
    rendered from the evaluation as text. The system prompt template and
    the model call are fixed when the architect is built: `template` maps
    (version, feedback text, requirements) to the system message, and `llm`
    maps the messages and the temperature to the reply text. */
module PromptArchitect {
  import opened Text
  import opened BaseAgent

  const NoFeedback: string := "No previous feedback available."
  const SuggestionsHeading: string := "\n\nSuggestions for improvement:\n"

  // ---- rendering the feedback -------------------------------------------------

  /** `f"- {category}: {note} (Score: {score}/200)"` */
  function CategoryLine(category: string, fb: CategoryFeedback): string {
    "- " + category + ": " + fb.note + " (Score: " + IntToString(fb.score) + "/200)"
  }

  /** One line per category, in the mapping's order. */
  function CategoryLines(fs: Feedback): (ls: seq<string>)
    ensures |ls| == |fs|
    ensures forall i :: 0 <= i < |fs| ==> ls[i] == CategoryLine(fs[i].0, fs[i].1)
  {
    seq(|fs|, i requires 0 <= i < |fs| => CategoryLine(fs[i].0, fs[i].1))
  }

  /** One `- s` line per suggestion, in order. */
  function BulletLines(ss: seq<string>): (ls: seq<string>)
    ensures |ls| == |ss|
    ensures forall i :: 0 <= i < |ss| ==> ls[i] == "- " + ss[i]
  {
    seq(|ss|, i requires 0 <= i < |ss| => "- " + ss[i])
  }

  /** The feedback text shown to the model: the category lines joined by
      newlines, then the suggestions block when there are suggestions. */
  function FeedbackText(e: Evaluation): string {
    var block := Join("\n", CategoryLines(e.feedback));
    if e.suggestions != [] then block + SuggestionsHeading + Join("\n", BulletLines(e.suggestions))
    else block
  }

  /** The user message of a refinement. */
  function UserMessage(score: int, prompt: string): string {
    "Here's the current prompt that received a score of " + IntToString(score) + "/1000:\n\n" + prompt
  }

  /** With no feedback and no suggestions the feedback text is empty. */
  lemma EmptyFeedbackText(e: Evaluation)
    requires e.feedback == [] && e.suggestions == []
    ensures FeedbackText(e) == ""
  {
  }

  /** The suggestions block is there exactly when there are suggestions:
      without them the text is the category lines alone, with them it is
      those lines, the heading and the bullets. */
  lemma SuggestionsBlockIffSuggestions(e: Evaluation)
    ensures e.suggestions == [] ==> FeedbackText(e) == Join("\n", CategoryLines(e.feedback))
    ensures e.suggestions != [] ==>
      FeedbackText(e) == Join("\n", CategoryLines(e.feedback)) + SuggestionsHeading + Join("\n", BulletLines(e.suggestions))
  {
  }

  /** When no category and no note holds a newline, the category block
      splits back into exactly one line per category, in order. */
  lemma CategoryBlockLines(fs: Feedback)
    requires fs != []
    requires forall i :: 0 <= i < |fs| ==> '\n' !in fs[i].0 && '\n' !in fs[i].1.note
    ensures Split(Join("\n", CategoryLines(fs)), '\n') == CategoryLines(fs)
  {
    var ls := CategoryLines(fs);
    forall i | 0 <= i < |ls|
      ensures '\n' !in ls[i]
    {
      CategoryLineNoNewline(fs[i].0, fs[i].1);
    }
    SplitJoin(ls, '\n');
  }

  lemma CategoryLineNoNewline(category: string, fb: CategoryFeedback)
    requires '\n' !in category && '\n' !in fb.note
    ensures '\n' !in CategoryLine(category, fb)
  {
    IntToStringStrip(fb.score);
  }

  /** The user message ends with the current prompt, verbatim, after the
      line announcing its score. */
  lemma UserMessageEmbedsPrompt(score: int, prompt: string)
    ensures var m := UserMessage(score, prompt);
      |prompt| <= |m| && m[|m| - |prompt|..] == prompt
      && m[..|m| - |prompt|] == "Here's the current prompt that received a score of " + IntToString(score) + "/1000:\n\n"
  {
  }

  // ---- the agent ----------------------------------------------------------------

  class PromptArchitect {
    const template: (int, string, string) -> string
    const temperature: real
    const llm: (seq<Message>, real) -> string
    var version: int

    predicate Valid()
      reads this
    {
      version >= 1
    }

    constructor (template: (int, string, string) -> string, temperature: real,
                 llm: (seq<Message>, real) -> string)
      ensures this.template == template && this.temperature == temperature && this.llm == llm
      ensures version == 1
      ensures Valid()
    {
      this.template := template;
      this.temperature := temperature;
      this.llm := llm;
      version := 1;
    }

    /** The messages of the first generation, at the current version. */
    function InitialMessages(requirements: string): (ms: seq<Message>)
      reads this
      ensures ms == [Message("system", template(version, NoFeedback, requirements))]
    {
      [Message("system", template(version, NoFeedback, requirements))]
    }

    /** The messages of a refinement, at version `v`. */
    function RefineMessages(v: int, current: string, e: Evaluation, requirements: string): (ms: seq<Message>)
      ensures |ms| == 2
      ensures ms[0] == Message("system", template(v, FeedbackText(e), requirements))
      ensures ms[1] == Message("user", UserMessage(e.score, current))
    {
      [Message("system", template(v, FeedbackText(e), requirements)),
       Message("user", UserMessage(e.score, current))]
    }

    /** The reply to the first-generation messages, stripped; the version
        is left as it is. */
    method GenerateInitialPrompt(requirements: string) returns (p: string)
      requires Valid()
      ensures p == Strip(llm(InitialMessages(requirements), temperature))
      ensures p == [] || (!IsSpace(p[0]) && !IsSpace(p[|p| - 1]))
    {
      var reply := llm(InitialMessages(requirements), temperature);
      p := Strip(reply);
    }

    /** Advances the version by one, then asks for a refinement at the new
        version and returns the stripped reply. */
    method RefinePrompt(current: string, e: Evaluation, requirements: string) returns (p: string)
      requires Valid()
      modifies this
      ensures version == old(version) + 1
      ensures Valid()
      ensures p == Strip(llm(RefineMessages(version, current, e, requirements), temperature))
      ensures p == [] || (!IsSpace(p[0]) && !IsSpace(p[|p| - 1]))
    {
      version := version + 1;
      var reply := llm(RefineMessages(version, current, e, requirements), temperature);
      p := Strip(reply);
    }
  }
}
