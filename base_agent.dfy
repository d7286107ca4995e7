/** `BaseAgent.parse_evaluation`: turns an evaluator's reply text into a
    score, per-category feedback and a list of suggestions.

    The reply is read line by line. The score comes from the first line
    whose stripped form starts with `SCORE:`. A `FEEDBACK:` line opens the
    feedback section and a `SUGGESTIONS:` line closes it; inside it, lines
    `- category: score - note` become feedback entries (a later entry for
    the same category replaces the earlier one in place, as assigning into
    a Python dict does), and outside it, lines `- text` become
    suggestions.

    `Classify` reads what a single line says; `ScoreOf`, `FeedbackOf` and
    `SuggestionsOf` say what a sequence of classified lines amounts to, and
    `ParseEvaluation` is the parser itself, proved to compute them. */
module BaseAgent {
  import opened Wrappers
  import opened Text

  datatype CategoryFeedback = CategoryFeedback(score: int, note: string)

  /** A Python dict from category to feedback, in insertion order. */
  type Feedback = seq<(string, CategoryFeedback)>

  /** One chat message passed to the language model. */
  datatype Message = Message(role: string, content: string)

  datatype Evaluation = Evaluation(score: int, feedback: Feedback, suggestions: seq<string>)

  const DefaultEvaluation: Evaluation := Evaluation(0, [], [])

  // ---- the feedback mapping ---------------------------------------------------

  function Keys(fs: Feedback): (ks: seq<string>)
    ensures |ks| == |fs|
    ensures forall i :: 0 <= i < |fs| ==> ks[i] == fs[i].0
  {
    seq(|fs|, i requires 0 <= i < |fs| => fs[i].0)
  }

  /** `d.get(k)` */
  function Lookup(fs: Feedback, k: string): (r: Option<CategoryFeedback>)
    ensures r.None? <==> k !in Keys(fs)
  {
    if fs == [] then None
    else if fs[0].0 == k then Some(fs[0].1)
    else
      assert Keys(fs) == [fs[0].0] + Keys(fs[1..]);
      Lookup(fs[1..], k)
  }

  /** `d[k] = v`: an existing key keeps its position and takes the new
      value; a new key goes at the end. */
  function Upsert(fs: Feedback, k: string, v: CategoryFeedback): (r: Feedback)
    ensures Keys(r) == if k in Keys(fs) then Keys(fs) else Keys(fs) + [k]
  {
    if fs == [] then [(k, v)]
    else
      KeysCons(fs[0], fs[1..]);
      assert [fs[0]] + fs[1..] == fs;
      if fs[0].0 == k then
        KeysCons((k, v), fs[1..]);
        [(k, v)] + fs[1..]
      else
        KeysCons(fs[0], Upsert(fs[1..], k, v));
        [fs[0]] + Upsert(fs[1..], k, v)
  }

  lemma KeysCons(p: (string, CategoryFeedback), fs: Feedback)
    ensures Keys([p] + fs) == [p.0] + Keys(fs)
  {
  }

  /** After `d[k] = v`, `d.get(k)` is `v` and every other key reads as before. */
  lemma {:induction false} UpsertLookup(fs: Feedback, k: string, v: CategoryFeedback, k': string)
    ensures Lookup(Upsert(fs, k, v), k) == Some(v)
    ensures k' != k ==> Lookup(Upsert(fs, k, v), k') == Lookup(fs, k')
  {
    if fs != [] && fs[0].0 != k {
      UpsertLookup(fs[1..], k, v, k');
    }
  }

  predicate Distinct(ks: seq<string>) {
    forall i, j :: 0 <= i < j < |ks| ==> ks[i] != ks[j]
  }

  lemma UpsertDistinct(fs: Feedback, k: string, v: CategoryFeedback)
    requires Distinct(Keys(fs))
    ensures Distinct(Keys(Upsert(fs, k, v)))
  {
  }

  // ---- one line -----------------------------------------------------------------

  /** What one line of the reply is, as the parser sees it. */
  datatype Line =
    | ScoreTag(value: int)
    | FeedbackTag
    | SuggestionsTag
    | Dash(entry: Option<(string, CategoryFeedback)>, bullet: Option<string>)
    | Plain

  /** `int(line.split(':')[1].strip())`, or 0 when that raises. */
  function ScoreLineValue(line: string): int {
    match SecondPart(line, ':')
    case None => 0
    case Some(p) => ParseInt(Strip(p)).GetOr(0)
  }

  /** A stripped `-` line read as `category: score - note`: `None` when it
      has no `:`, or no `-` after the `:`; an unparsable score reads as 0. */
  function FeedbackEntry(l: string): (r: Option<(string, CategoryFeedback)>)
    requires StartsWith(l, "-")
    ensures r.Some? <==> ':' in l[1..] && '-' in SplitOnce(l[1..], ':')[1]
  {
    var parts := SplitOnce(l[1..], ':');
    if |parts| != 2 then None
    else
      var fb := SplitOnce(parts[1], '-');
      if |fb| != 2 then None
      else Some((Strip(parts[0]), CategoryFeedback(ParseInt(Strip(fb[0])).GetOr(0), Strip(fb[1]))))
  }

  /** The first characters the tag prefixes fix, which tell them apart. */
  lemma PrefixHeads(l: string)
    ensures StartsWith(l, "SCORE:") ==> l[0] == 'S' && l[1] == 'C'
    ensures StartsWith(l, "FEEDBACK:") ==> l[0] == 'F'
    ensures StartsWith(l, "SUGGESTIONS:") ==> l[0] == 'S' && l[1] == 'U'
    ensures StartsWith(l, "- ") ==> StartsWith(l, "-")
    ensures StartsWith(l, "-") ==> l[0] == '-'
  {
  }

  /** What a stripped line `l` is; `scoreValue` is what its unstripped form
      gives as a score line. */
  function LineKind(l: string, scoreValue: int): (k: Line)
    ensures k.ScoreTag? <==> StartsWith(l, "SCORE:")
    ensures k.ScoreTag? ==> k.value == scoreValue
    ensures k.FeedbackTag? <==> StartsWith(l, "FEEDBACK:")
    ensures k.SuggestionsTag? <==> StartsWith(l, "SUGGESTIONS:")
    ensures k.Dash? <==> StartsWith(l, "-")
    ensures k.Dash? ==> k.entry == FeedbackEntry(l)
    ensures k.Dash? ==> (k.bullet.Some? <==> StartsWith(l, "- "))
    ensures k.Dash? && k.bullet.Some? ==> k.bullet.value == Strip(l[2..])
  {
    PrefixHeads(l);
    if StartsWith(l, "FEEDBACK:") then FeedbackTag
    else if StartsWith(l, "SUGGESTIONS:") then SuggestionsTag
    else if StartsWith(l, "-") then
      Dash(FeedbackEntry(l), if StartsWith(l, "- ") then Some(Strip(l[2..])) else None)
    else if StartsWith(l, "SCORE:") then ScoreTag(scoreValue)
    else Plain
  }

  /** The tags are told apart by the stripped line's prefix; a `-` line
      carries both readings, the one the section flag will pick. The score
      of a `SCORE:` line is read from the line as it stands. */
  function Classify(raw: string): (k: Line)
    ensures k.ScoreTag? <==> StartsWith(Strip(raw), "SCORE:")
    ensures k.ScoreTag? ==> k.value == ScoreLineValue(raw)
    ensures k.FeedbackTag? <==> StartsWith(Strip(raw), "FEEDBACK:")
    ensures k.SuggestionsTag? <==> StartsWith(Strip(raw), "SUGGESTIONS:")
    ensures k.Dash? <==> StartsWith(Strip(raw), "-")
    ensures k.Dash? ==> k.entry == FeedbackEntry(Strip(raw))
    ensures k.Dash? ==> (k.bullet.Some? <==> StartsWith(Strip(raw), "- "))
    ensures k.Dash? && k.bullet.Some? ==> k.bullet.value == Strip(Strip(raw)[2..])
  {
    LineKind(Strip(raw), ScoreLineValue(raw))
  }

  /** Every line of the reply, classified. */
  function Kinds(lines: seq<string>): (ks: seq<Line>)
    ensures |ks| == |lines|
  {
    if lines == [] then [] else [Classify(lines[0])] + Kinds(lines[1..])
  }

  lemma {:induction false} KindsAt(lines: seq<string>, i: nat)
    requires i < |lines|
    ensures Kinds(lines)[i] == Classify(lines[i])
    decreases i
  {
    if i > 0 {
      KindsAt(lines[1..], i - 1);
    }
  }

  // ---- what a sequence of lines amounts to ---------------------------------------

  /** The value of the first score line, as `next(...)` finds it. */
  function FirstScore(ks: seq<Line>): (r: Option<int>)
    ensures r.None? <==> forall i :: 0 <= i < |ks| ==> !ks[i].ScoreTag?
  {
    if ks == [] then None
    else if ks[0].ScoreTag? then Some(ks[0].value)
    else
      assert forall i :: 1 <= i < |ks| ==> ks[i] == ks[1..][i - 1];
      FirstScore(ks[1..])
  }

  function ScoreOf(ks: seq<Line>): int {
    FirstScore(ks).GetOr(0)
  }

  /** Whether the feedback section is open after these lines. */
  predicate InSection(ks: seq<Line>) {
    if ks == [] then false
    else if ks[|ks| - 1].FeedbackTag? then true
    else if ks[|ks| - 1].SuggestionsTag? then false
    else InSection(ks[..|ks| - 1])
  }

  /** What line `i` contributes to the feedback: its entry, if it is a
      well-formed `-` line inside the section. */
  function EntryAt(ks: seq<Line>, i: nat): Option<(string, CategoryFeedback)>
    requires i < |ks|
  {
    if ks[i].Dash? && InSection(ks[..i]) then ks[i].entry else None
  }

  /** What line `i` contributes to the suggestions: its text, if it is a
      `- ` line outside the section. */
  function SuggestionAt(ks: seq<Line>, i: nat): Option<string>
    requires i < |ks|
  {
    if ks[i].Dash? && !InSection(ks[..i]) then ks[i].bullet else None
  }

  function FeedbackOf(ks: seq<Line>): Feedback {
    if ks == [] then []
    else
      var prev := FeedbackOf(ks[..|ks| - 1]);
      match EntryAt(ks, |ks| - 1)
      case None => prev
      case Some((c, e)) => Upsert(prev, c, e)
  }

  function SuggestionsOf(ks: seq<Line>): seq<string> {
    if ks == [] then []
    else
      var prev := SuggestionsOf(ks[..|ks| - 1]);
      match SuggestionAt(ks, |ks| - 1)
      case None => prev
      case Some(s) => prev + [s]
  }

  function Parse(text: string): Evaluation {
    var ks := Kinds(Split(text, '\n'));
    Evaluation(ScoreOf(ks), FeedbackOf(ks), SuggestionsOf(ks))
  }

  // ---- the parser -------------------------------------------------------------

  method ParseEvaluation(text: string) returns (result: Evaluation)
    ensures result == Parse(text)
  {
    var lines := Split(text, '\n');
    ghost var ks := Kinds(lines);
    var score := FindScore(lines);
    result := DefaultEvaluation.(score := score);

    var feedbackSection := false;
    var i := 0;
    while i < |lines|
      invariant 0 <= i <= |lines|
      invariant result.score == ScoreOf(ks)
      invariant feedbackSection == InSection(ks[..i])
      invariant result.feedback == FeedbackOf(ks[..i])
      invariant result.suggestions == SuggestionsOf(ks[..i])
    {
      PrefixStep(ks, i);
      var feedback, suggestions;
      feedbackSection, feedback, suggestions :=
        ScanLine(lines, i, feedbackSection, result.feedback, result.suggestions);
      result := result.(feedback := feedback, suggestions := suggestions);
      i := i + 1;
    }
    assert ks[..|lines|] == ks;
  }

  /** The score search: the first line whose stripped form starts with
      `SCORE:`, read as `int(line.split(':')[1].strip())`; 0 when there is
      no such line, when it has no second part or when that part is not an
      integer. */
  method FindScore(lines: seq<string>) returns (score: int)
    ensures score == ScoreOf(Kinds(lines))
  {
    var k := FindScoreLine(lines);
    score := 0;
    if k < |lines| {
      score := ReadScore(lines[k]);
    }
  }

  /** `next(...)` over the lines: the index of the first `SCORE:` line, or
      the number of lines when there is none. */
  method FindScoreLine(lines: seq<string>) returns (k: nat)
    ensures k <= |lines|
    ensures FirstScore(Kinds(lines)) == if k < |lines| then Some(ScoreLineValue(lines[k])) else None
  {
    ghost var ks := Kinds(lines);
    k := 0;
    while k < |lines| && !StartsWith(Strip(lines[k]), "SCORE:")
      invariant 0 <= k <= |lines|
      invariant FirstScore(ks) == FirstScore(ks[k..])
    {
      KindsAt(lines, k);
      assert ks[k..][1..] == ks[k + 1..];
      k := k + 1;
    }
    if k < |lines| {
      KindsAt(lines, k);
      assert FirstScore(ks[k..]) == Some(ks[k].value);
    }
  }

  /** `int(line.split(':')[1].strip())`, falling back to 0 on the
      `IndexError` or `ValueError` it raises, step by step as the code
      does it. `FindScore` calls it; `ScoreLineValue` is the value it is
      proved to compute, which the lemmas (unable to call a method) use. */
  method ReadScore(line: string) returns (score: int)
    ensures score == ScoreLineValue(line)
  {
    score := 0;
    var parts := Split(line, ':');
    if |parts| >= 2 {
      var n := ParseInt(Strip(parts[1]));
      if n.Some? {
        score := n.value;
      }
    }
  }

  /** One pass of the loop over the lines, on line `i`: what it does to the
      section flag, the feedback mapping and the suggestions. */
  method ScanLine(lines: seq<string>, i: nat, inSection: bool, feedback: Feedback, suggestions: seq<string>)
    returns (inSection': bool, feedback': Feedback, suggestions': seq<string>)
    requires i < |lines|
    ensures inSection' ==
      (if Kinds(lines)[i].FeedbackTag? then true else if Kinds(lines)[i].SuggestionsTag? then false else inSection)
    ensures feedback' ==
      (if Kinds(lines)[i].Dash? && inSection && Kinds(lines)[i].entry.Some?
       then Upsert(feedback, Kinds(lines)[i].entry.value.0, Kinds(lines)[i].entry.value.1)
       else feedback)
    ensures suggestions' ==
      (if Kinds(lines)[i].Dash? && !inSection && Kinds(lines)[i].bullet.Some?
       then suggestions + [Kinds(lines)[i].bullet.value]
       else suggestions)
  {
    KindsAt(lines, i);
    inSection', feedback', suggestions' := inSection, feedback, suggestions;
    var line := Strip(lines[i]);
    PrefixHeads(line);
    if StartsWith(line, "FEEDBACK:") {
      inSection' := true;
    } else if StartsWith(line, "SUGGESTIONS:") {
      inSection' := false;
    } else if inSection && StartsWith(line, "-") {
      var entry := ReadEntry(line);
      if entry.Some? {
        feedback' := Upsert(feedback, entry.value.0, entry.value.1);
      }
    } else if StartsWith(line, "- ") {
      suggestions' := suggestions + [Strip(line[2..])];
    }
  }

  /** The body of the feedback branch: splits a stripped `-` line at its
      first `:` and the rest at its first `-`, step by step as the code does
      it. `ScanLine` calls it; `FeedbackEntry` is the value it is proved to
      compute, which the lemmas (unable to call a method) use. */
  method ReadEntry(line: string) returns (entry: Option<(string, CategoryFeedback)>)
    requires StartsWith(line, "-")
    ensures entry == FeedbackEntry(line)
  {
    entry := None;
    var parts := SplitOnce(line[1..], ':');
    if |parts| == 2 {
      var category := Strip(parts[0]);
      var fb := SplitOnce(parts[1], '-');
      if |fb| == 2 {
        var score := ParseInt(Strip(fb[0]));
        entry := Some((category, CategoryFeedback(if score.Some? then score.value else 0, Strip(fb[1]))));
      }
    }
  }

  /** How the state after `ks[..i + 1]` follows from the state after `ks[..i]`. */
  lemma PrefixStep(ks: seq<Line>, i: nat)
    requires i < |ks|
    ensures InSection(ks[..i + 1]) ==
      (if ks[i].FeedbackTag? then true else if ks[i].SuggestionsTag? then false else InSection(ks[..i]))
    ensures FeedbackOf(ks[..i + 1]) ==
      (match EntryAt(ks, i) case None => FeedbackOf(ks[..i]) case Some((c, e)) => Upsert(FeedbackOf(ks[..i]), c, e))
    ensures SuggestionsOf(ks[..i + 1]) ==
      (match SuggestionAt(ks, i) case None => SuggestionsOf(ks[..i]) case Some(s) => SuggestionsOf(ks[..i]) + [s])
  {
    assert ks[..i + 1][..i] == ks[..i];
  }

  // ---- properties -------------------------------------------------------------

  /** A line of `ks[..n]` contributes what it contributes to `ks`. */
  lemma AtPrefix(ks: seq<Line>, n: nat, i: nat)
    requires i < n <= |ks|
    ensures EntryAt(ks[..n], i) == EntryAt(ks, i)
    ensures SuggestionAt(ks[..n], i) == SuggestionAt(ks, i)
  {
    assert ks[..n][..i] == ks[..i];
  }

  /** Lines with no `SCORE:`, no `FEEDBACK:` and no `- ` line (in particular
      the single empty line of an empty reply) give the defaults: score 0,
      no feedback, no suggestions. */
  lemma TagFreeGivesDefaults(ks: seq<Line>)
    requires forall i :: 0 <= i < |ks| ==>
      !ks[i].ScoreTag? && !ks[i].FeedbackTag? && !(ks[i].Dash? && ks[i].bullet.Some?)
    ensures ScoreOf(ks) == 0 && FeedbackOf(ks) == [] && SuggestionsOf(ks) == []
    ensures !InSection(ks)
  {
    NoScoreLineGivesZero(ks);
    TagFreeNothingCollected(ks);
  }

  /** No line opens the feedback section and no line is a `- ` bullet. */
  predicate NothingToCollect(ks: seq<Line>) {
    forall i :: 0 <= i < |ks| ==> !ks[i].FeedbackTag? && !(ks[i].Dash? && ks[i].bullet.Some?)
  }

  lemma NothingToCollectPrefix(ks: seq<Line>, n: nat)
    requires n <= |ks| && NothingToCollect(ks)
    ensures NothingToCollect(ks[..n])
  {
    assert forall i :: 0 <= i < n ==> ks[..n][i] == ks[i];
  }

  lemma {:induction false} TagFreeNothingCollected(ks: seq<Line>)
    requires NothingToCollect(ks)
    ensures FeedbackOf(ks) == [] && SuggestionsOf(ks) == [] && !InSection(ks)
    decreases |ks|
  {
    if ks != [] {
      var n := |ks| - 1;
      NothingToCollectPrefix(ks, n);
      TagFreeNothingCollected(ks[..n]);
      assert !ks[n].FeedbackTag? && !(ks[n].Dash? && ks[n].bullet.Some?);
    }
  }

  /** An empty reply gives the defaults. */
  lemma EmptyTextGivesDefaults()
    ensures Parse("") == DefaultEvaluation
  {
    EmptyTextKinds();
    TagFreeGivesDefaults([Plain]);
  }

  /** An empty reply is one plain line. */
  lemma EmptyTextKinds()
    ensures Kinds(Split("", '\n')) == [Plain]
  {
    assert Split("", '\n') == [""];
    KindsAt([""], 0);
    assert Classify("") == Plain by {
      assert Strip("") == "";
    }
  }

  /** The score is read from the first `SCORE:` line only. */
  lemma {:induction false} ScoreFromFirstLine(ks: seq<Line>, i: nat)
    requires i < |ks| && ks[i].ScoreTag?
    requires forall j :: 0 <= j < i ==> !ks[j].ScoreTag?
    ensures ScoreOf(ks) == ks[i].value
    decreases i
  {
    if i > 0 {
      var tail := ks[1..];
      assert forall j :: 0 <= j < i - 1 ==> tail[j] == ks[j + 1];
      ScoreFromFirstLine(tail, i - 1);
    }
  }

  /** The line `SCORE: n` is a score line that reads back as `n`, for
      every integer `n`. */
  lemma ScoreLineRoundTrip(n: int)
    ensures Classify("SCORE: " + IntToString(n)) == ScoreTag(n)
  {
    ScoreLineValueOf(n);
    ScoreLineTagged(n);
    ClassifyScoreLine("SCORE: " + IntToString(n), n);
  }

  /** `SCORE: n` still starts with `SCORE:` once stripped. */
  lemma ScoreLineTagged(n: int)
    ensures StartsWith(Strip("SCORE: " + IntToString(n)), "SCORE:")
  {
    IntToStringStrip(n);
    ScorePrefix();
    StripKeepsPrefix("SCORE: ", "SCORE:", IntToString(n));
  }

  lemma ScorePrefix()
    ensures StartsWith("SCORE: ", "SCORE:") && !IsSpace("SCORE: "[0])
  {
  }

  lemma ClassifyScoreLine(raw: string, v: int)
    requires StartsWith(Strip(raw), "SCORE:") && ScoreLineValue(raw) == v
    ensures Classify(raw) == ScoreTag(v)
  {
  }

  lemma ScoreLineValueOf(n: int)
    ensures ScoreLineValue("SCORE: " + IntToString(n)) == n
  {
    var s := IntToString(n);
    IntToStringStrip(n);
    ScoreLineShape(s);
    SecondPartAfter("SCORE", " " + s, ':');
    StripLeadingSpace(' ', s);
    IntToStringRoundTrip(n);
  }

  /** `SCORE: s` is `SCORE`, a colon, then ` s`. */
  lemma ScoreLineShape(s: string)
    ensures "SCORE: " + s == "SCORE" + [':'] + (" " + s)
  {
    assert "SCORE: " == "SCORE" + [':'] + " ";
    ConcatAssoc("SCORE" + [':'], " ", s);
  }

  /** A reply that is the single line `SCORE: n` scores `n`. */
  lemma ParseScoreLine(n: int)
    ensures Parse("SCORE: " + IntToString(n)).score == n
  {
    var line := "SCORE: " + IntToString(n);
    IntToStringStrip(n);
    assert '\n' !in line;
    SplitNoSep(line, '\n');
    KindsAt([line], 0);
    ScoreLineRoundTrip(n);
    ScoreFromFirstLine(Kinds([line]), 0);
  }

  /** Lines after a `SCORE:` line, `SCORE:` lines included, cannot change
      the score. */
  lemma {:induction false} ScoreIgnoresLaterLines(ks: seq<Line>, more: seq<Line>, i: nat)
    requires i < |ks| && ks[i].ScoreTag?
    ensures ScoreOf(ks + more) == ScoreOf(ks)
    decreases i
  {
    if !ks[0].ScoreTag? {
      assert (ks + more)[1..] == ks[1..] + more;
      ScoreIgnoresLaterLines(ks[1..], more, i - 1);
    }
  }

  /** No `SCORE:` line: the score is 0. */
  lemma NoScoreLineGivesZero(ks: seq<Line>)
    requires forall i :: 0 <= i < |ks| ==> !ks[i].ScoreTag?
    ensures ScoreOf(ks) == 0
  {
  }

  /** The last line leaves a category alone unless it names it. */
  lemma FeedbackStep(ks: seq<Line>, c: string)
    requires ks != []
    requires EntryAt(ks, |ks| - 1).None? || EntryAt(ks, |ks| - 1).value.0 != c
    ensures Lookup(FeedbackOf(ks), c) == Lookup(FeedbackOf(ks[..|ks| - 1]), c)
  {
    var n := |ks| - 1;
    match EntryAt(ks, n)
    case None =>
    case Some((c', e')) => UpsertLookup(FeedbackOf(ks[..n]), c', e', c);
  }

  /** No line after `i` gives an entry for category `c`. */
  predicate NoLaterEntry(ks: seq<Line>, i: nat, c: string) {
    forall j :: i < j < |ks| ==> EntryAt(ks, j).None? || EntryAt(ks, j).value.0 != c
  }

  /** `NoLaterEntry` passes from `ks` to `ks` without its last line, which
      then leaves `c` alone. */
  lemma NoLaterEntryPrefix(ks: seq<Line>, i: nat, c: string)
    requires i < |ks| - 1 && NoLaterEntry(ks, i, c)
    ensures NoLaterEntry(ks[..|ks| - 1], i, c)
    ensures EntryAt(ks[..|ks| - 1], i) == EntryAt(ks, i)
    ensures EntryAt(ks, |ks| - 1).None? || EntryAt(ks, |ks| - 1).value.0 != c
  {
    var n := |ks| - 1;
    forall j | i < j < n
      ensures EntryAt(ks[..n], j).None? || EntryAt(ks[..n], j).value.0 != c
    {
      AtPrefix(ks, n, j);
    }
    AtPrefix(ks, n, i);
  }

  /** The feedback mapping holds, for each category, the entry of the last
      feedback line naming it. */
  lemma {:induction false} FeedbackLastWins(ks: seq<Line>, i: nat, c: string, e: CategoryFeedback)
    requires i < |ks| && EntryAt(ks, i) == Some((c, e))
    requires NoLaterEntry(ks, i, c)
    ensures Lookup(FeedbackOf(ks), c) == Some(e)
    decreases |ks|
  {
    if i < |ks| - 1 {
      NoLaterEntryPrefix(ks, i, c);
      FeedbackLastWins(ks[..|ks| - 1], i, c, e);
      FeedbackStep(ks, c);
    } else {
      FeedbackLastLine(ks, c, e);
    }
  }

  /** The last line's entry is what the mapping holds for its category. */
  lemma FeedbackLastLine(ks: seq<Line>, c: string, e: CategoryFeedback)
    requires ks != [] && EntryAt(ks, |ks| - 1) == Some((c, e))
    ensures Lookup(FeedbackOf(ks), c) == Some(e)
  {
    UpsertLookup(FeedbackOf(ks[..|ks| - 1]), c, e, c);
  }

  /** Every category in the mapping was named by some feedback line, with
      the entry that line gave. */
  lemma {:induction false} FeedbackFromLines(ks: seq<Line>, c: string)
    requires Lookup(FeedbackOf(ks), c).Some?
    ensures exists i :: 0 <= i < |ks| && EntryAt(ks, i) == Some((c, Lookup(FeedbackOf(ks), c).value))
    decreases |ks|
  {
    var n := |ks| - 1;
    var prev := FeedbackOf(ks[..n]);
    if EntryAt(ks, n).Some? && EntryAt(ks, n).value.0 == c {
      UpsertLookup(prev, c, EntryAt(ks, n).value.1, c);
    } else {
      FeedbackStep(ks, c);
      FeedbackFromLines(ks[..n], c);
      var i :| 0 <= i < n && EntryAt(ks[..n], i) == Some((c, Lookup(prev, c).value));
      AtPrefix(ks, n, i);
    }
  }

  /** A category no feedback line names is absent from the mapping. */
  lemma {:induction false} FeedbackAbsent(ks: seq<Line>, c: string)
    requires forall i :: 0 <= i < |ks| ==> EntryAt(ks, i).None? || EntryAt(ks, i).value.0 != c
    ensures Lookup(FeedbackOf(ks), c).None?
    decreases |ks|
  {
    if ks != [] {
      var n := |ks| - 1;
      forall j | 0 <= j < n
        ensures EntryAt(ks[..n], j).None? || EntryAt(ks[..n], j).value.0 != c
      {
        AtPrefix(ks, n, j);
      }
      FeedbackAbsent(ks[..n], c);
      FeedbackStep(ks, c);
    }
  }

  /** The mapping never holds a category twice. */
  lemma {:induction false} FeedbackKeysDistinct(ks: seq<Line>)
    ensures Distinct(Keys(FeedbackOf(ks)))
    decreases |ks|
  {
    if ks != [] {
      var n := |ks| - 1;
      FeedbackKeysDistinct(ks[..n]);
      match EntryAt(ks, n)
      case None =>
      case Some((c, e)) => UpsertDistinct(FeedbackOf(ks[..n]), c, e);
    }
  }

  /** A `-` line inside the feedback section that has no `:`, or no `-`
      after it, is dropped: it is neither feedback nor a suggestion, and the
      section stays open. */
  lemma MalformedFeedbackLineDropped(ks: seq<Line>, k: Line)
    requires InSection(ks) && k.Dash? && k.entry.None?
    ensures FeedbackOf(ks + [k]) == FeedbackOf(ks)
    ensures SuggestionsOf(ks + [k]) == SuggestionsOf(ks)
    ensures InSection(ks + [k])
  {
    assert (ks + [k])[..|ks|] == ks;
  }

  /** Each suggestion is the text of a `- ` line outside the feedback
      section, and suggestions keep the order of their lines. */
  lemma {:induction false} SuggestionsFromLines(ks: seq<Line>, k: nat)
    requires k < |SuggestionsOf(ks)|
    ensures exists i :: 0 <= i < |ks| && SuggestionAt(ks, i) == Some(SuggestionsOf(ks)[k])
    decreases |ks|
  {
    var n := |ks| - 1;
    var prev := SuggestionsOf(ks[..n]);
    if k < |prev| {
      SuggestionsFromLines(ks[..n], k);
      var i :| 0 <= i < n && SuggestionAt(ks[..n], i) == Some(prev[k]);
      AtPrefix(ks, n, i);
    }
  }

  /** A line outside the feedback section contributes a suggestion exactly
      when it starts with `- ` once stripped. */
  lemma SuggestionLine(lines: seq<string>, i: nat)
    requires i < |lines| && !InSection(Kinds(lines)[..i])
    ensures SuggestionAt(Kinds(lines), i).Some? <==> StartsWith(Strip(lines[i]), "- ")
    ensures SuggestionAt(Kinds(lines), i).Some? ==>
      SuggestionAt(Kinds(lines), i).value == Strip(Strip(lines[i])[2..])
  {
    KindsAt(lines, i);
    PrefixHeads(Strip(lines[i]));
  }

  /** A line inside the feedback section becomes an entry exactly when it
      is a stripped `-` line with a `:` and a `-` after it. */
  lemma FeedbackLine(lines: seq<string>, i: nat)
    requires i < |lines| && InSection(Kinds(lines)[..i])
    ensures EntryAt(Kinds(lines), i).Some? <==>
      StartsWith(Strip(lines[i]), "-") && FeedbackEntry(Strip(lines[i])).Some?
    ensures EntryAt(Kinds(lines), i).Some? ==> EntryAt(Kinds(lines), i) == FeedbackEntry(Strip(lines[i]))
  {
    KindsAt(lines, i);
  }
}
