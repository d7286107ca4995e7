/** `LocalizationMiddleware._parse_accept_language`, which picks the reply
    language from an `Accept-Language` header, and the header overlay of
    `SecurityHeadersMiddleware`. */
module Middleware {
  import opened Wrappers
  import opened Text

  /** One parsed entry of the header: a language tag reduced to its
      primary subtag, and its quality value. */
  datatype Preference = Preference(language: string, q: real)

  /** The languages the middleware answers in. `LocalizationMiddleware`
      hard-codes this list in its constructor; it is not read from the
      settings (whose `SUPPORTED_LANGUAGES` holds the same five today). */
  const SupportedLanguages: seq<string> := ["en", "fr", "es", "de", "zh"]

  predicate Supported(language: string) {
    language in SupportedLanguages
  }

  /** `lang.split("-")[0]` when the tag has a `-`. */
  function PrimarySubtag(tag: string): (r: string)
    ensures '-' !in r
    ensures '-' !in tag ==> r == tag
  {
    if '-' in tag then Split(tag, '-')[0] else tag
  }

  /** The body of the parsing loop for one comma-separated entry. Without a
      `;` the quality is 1; with exactly one it is the number left after
      stripping `q` and `=` characters from both ends of the parameter;
      more than one `;`, or a parameter that is not a number, drops the
      entry. */
  function ParseEntry(raw: string): (r: Option<Preference>)
    ensures r.Some? ==> '-' !in r.value.language
  {
    var parts := Split(raw, ';');
    if |parts| == 1 then Some(Preference(LanguageOf(parts[0]), 1.0))
    else if |parts| == 2 then WithQuality(parts[0], parts[1])
    else None
  }

  /** The language part of an entry: stripped, lowercased, region dropped. */
  function LanguageOf(part: string): (l: string)
    ensures '-' !in l
  {
    PrimarySubtag(Lower(Strip(part)))
  }

  /** An entry with a `q=` parameter: kept when the parameter, with `q` and
      `=` stripped from both ends, is a number. */
  function WithQuality(part: string, param: string): (r: Option<Preference>)
    ensures r.Some? ==> '-' !in r.value.language
  {
    var q := ParseDecimal(StripChars(param, {'q', '='}));
    if q.None? then None else Some(Preference(LanguageOf(part), q.value))
  }

  /** Without a `;` the whole entry is the language, with quality 1. */
  lemma EntryWithoutQuality(raw: string)
    requires ';' !in raw
    ensures ParseEntry(raw) == Some(Preference(PrimarySubtag(Lower(Strip(raw))), 1.0))
  {
    SplitNoSep(raw, ';');
    assert Split(raw, ';')[0] == raw;
  }

  /** With more than one `;` the entry is dropped. */
  lemma ExtraParametersDropEntry(raw: string)
    requires |Split(raw, ';')| > 2
    ensures ParseEntry(raw).None?
  {
  }

  lemma PrimaryOf(a: string, b: string)
    requires '-' !in a
    ensures PrimarySubtag(a + ['-'] + b) == a
  {
    SplitAt(a, b, '-');
  }

  lemma LowerAroundDash(p: string, r: string)
    requires '-' !in p
    ensures Lower(p + ['-'] + r) == Lower(p) + ['-'] + Lower(r)
    ensures '-' !in Lower(p)
  {
    var l := Lower(p + ['-'] + r);
    assert forall i :: 0 <= i < |l| ==> l[i] == (Lower(p) + ['-'] + Lower(r))[i] by {
      forall i | 0 <= i < |l| ensures l[i] == (Lower(p) + ['-'] + Lower(r))[i] {
        if i < |p| { assert (p + ['-'] + r)[i] == p[i]; }
        else if i > |p| { assert (p + ['-'] + r)[i] == r[i - |p| - 1]; }
      }
    }
    assert forall i :: 0 <= i < |p| ==> Lower(p)[i] == LowerChar(p[i]);
  }

  /** A region subtag is dropped and the primary subtag lowercased:
      `FR-ca` gives `fr` with quality 1. */
  lemma RegionDropped(primary: string, region: string)
    requires forall i :: 0 <= i < |primary| ==> !IsSpace(primary[i]) && primary[i] != '-' && primary[i] != ';'
    requires forall i :: 0 <= i < |region| ==> !IsSpace(region[i]) && region[i] != ';'
    ensures ParseEntry(primary + "-" + region) == Some(Preference(Lower(primary), 1.0))
  {
    var raw := primary + ['-'] + region;
    DashJoinFree(primary, region);
    EntryWithoutQuality(raw);
    StripNoSpace(raw);
    LowerAroundDash(primary, region);
    PrimaryOf(Lower(primary), Lower(region));
  }

  /** Joining two strings free of whitespace and `;` with a `-` keeps the
      result free of them. */
  lemma DashJoinFree(primary: string, region: string)
    requires forall i :: 0 <= i < |primary| ==> !IsSpace(primary[i]) && primary[i] != ';'
    requires forall i :: 0 <= i < |region| ==> !IsSpace(region[i]) && region[i] != ';'
    ensures forall i :: 0 <= i < |primary + ['-'] + region| ==> !IsSpace((primary + ['-'] + region)[i])
    ensures ';' !in primary + ['-'] + region
  {
    var raw := primary + ['-'] + region;
    forall i | 0 <= i < |raw| ensures !IsSpace(raw[i]) && raw[i] != ';' {
      if i < |primary| { assert raw[i] == primary[i]; }
      else if i > |primary| { assert raw[i] == region[i - |primary| - 1]; }
    }
  }

  /** A space before `q` survives the strip of `q` and `=` characters, so
      the parameter is not a number and the entry is dropped, whatever
      the language and the value: `en; q=0.8` is skipped. */
  lemma SpaceBeforeQualityDropsEntry(lang: string, value: string)
    requires ';' !in lang && ';' !in value
    requires value != [] && value[|value| - 1] !in {'q', '='} && !IsSpace(value[|value| - 1])
    ensures ParseEntry(lang + "; q=" + value) == None
  {
    var param := " q=" + value;
    assert lang + "; q=" + value == lang + [';'] + param;
    SplitAt(lang, param, ';');
    assert ';' !in param;
    SplitNoSep(param, ';');
    SpacedQualityIsNotNumber(value);
    UnparsedQualityDropsEntry(lang + "; q=" + value, lang, param);
  }

  /** An entry of two parts whose parameter is not a number is dropped. */
  lemma UnparsedQualityDropsEntry(raw: string, head: string, param: string)
    requires Split(raw, ';') == [head, param]
    requires ParseDecimal(StripChars(param, {'q', '='})) == None
    ensures ParseEntry(raw) == None
  {
  }

  /** ` q=` followed by a value is left as it is by the strip of `q` and
      `=` characters, and then does not read as a number. */
  lemma SpacedQualityIsNotNumber(value: string)
    requires value != [] && value[|value| - 1] !in {'q', '='} && !IsSpace(value[|value| - 1])
    ensures ParseDecimal(StripChars(" q=" + value, {'q', '='})) == None
  {
    SpacedParamShape(value);
    KeptAndStripped(" q=" + value, "q=" + value, {'q', '='});
    DecimalStart(" q=" + value);
  }

  /** Where the characters of ` q=` followed by a value sit. */
  lemma SpacedParamShape(value: string)
    requires value != []
    ensures var param := " q=" + value;
      param[0] == ' ' && param[1..] == "q=" + value && param[|param| - 1] == value[|value| - 1]
      && ("q=" + value)[0] == 'q' && ("q=" + value)[|"q=" + value| - 1] == value[|value| - 1]
  {
    assert (" q=" + value)[1..] == "q=" + value;
  }

  /** A string led by a space and otherwise free of stripped characters at
      its ends keeps its ends under `strip(chars)`, and `strip()` removes
      just the space. */
  lemma KeptAndStripped(param: string, t: string, chars: set<char>)
    requires |param| > 0 && IsSpace(param[0]) && param[1..] == t
    requires t != [] && !IsSpace(t[0]) && !IsSpace(t[|t| - 1])
    requires param[0] !in chars && param[|param| - 1] !in chars
    ensures StripChars(param, chars) == param && Strip(param) == t
  {
    assert param == [param[0]] + t;
    StripLeadingSpace(param[0], t);
    StripEnds(t);
  }

  /** A `q=` parameter with a decimal value sets the entry's quality to
      that value: `fr;q=0.8` is `fr` with quality 8/10. */
  lemma QualityEntry(lang: string, w: nat, f: string)
    requires ';' !in lang && |f| >= 1 && AllDigits(f)
    ensures ParseEntry(lang + ";q=" + NatToString(w) + "." + f)
      == Some(Preference(LanguageOf(lang), PointValue(w, f)))
  {
    DecimalFraction(w, f);
    PointedQualityEntry(lang, w, f, PointValue(w, f));
  }

  /** `<lang>;q=<w>.<f>` has whatever quality `<w>.<f>` reads as. */
  lemma PointedQualityEntry(lang: string, w: nat, f: string, q: real)
    requires ';' !in lang && |f| >= 1 && AllDigits(f)
    requires ParseDecimal(NatToString(w) + "." + f) == Some(q)
    ensures ParseEntry(lang + ";q=" + NatToString(w) + "." + f) == Some(Preference(LanguageOf(lang), q))
  {
    var num := NatToString(w) + "." + f;
    PointedNumeral(w, f);
    ConcatAssoc(lang + ";q=", NatToString(w), ".");
    ConcatAssoc(lang + ";q=", NatToString(w) + ".", f);
    QualityValue(lang + ";q=" + NatToString(w) + "." + f, lang, num);
  }

  /** A `q=` parameter with a whole number: `de;q=1` is `de` with quality 1. */
  lemma WholeQualityEntry(lang: string, w: nat)
    requires ';' !in lang
    ensures ParseEntry(lang + ";q=" + NatToString(w)) == Some(Preference(LanguageOf(lang), w as real))
  {
    var num := NatToString(w);
    NatToStringValue(w);
    assert QualityNumeral(num);
    QualityValue(lang + ";q=" + num, lang, num);
    DecimalWhole(w);
  }

  /** Digits, points and underscores, with a digit at each end. */
  predicate QualityNumeral(num: string) {
    |num| > 0 && IsDigit(num[0]) && IsDigit(num[|num| - 1])
    && forall i :: 0 <= i < |num| ==> num[i] == '.' || IsDigit(num[i]) || num[i] == '_'
  }

  /** An entry `<lang>;q=<num>` has the quality that `num` reads as. */
  lemma QualityValue(raw: string, lang: string, num: string)
    requires raw == lang + ";q=" + num
    requires ';' !in lang
    requires QualityNumeral(num)
    ensures ParseDecimal(num).Some? ==>
      ParseEntry(raw) == Some(Preference(LanguageOf(lang), ParseDecimal(num).value))
  {
    var param := "q=" + num;
    assert raw == lang + [';'] + param;
    SplitAt(lang, param, ';');
    QualityParam(num);
    SplitNoSep(param, ';');
    TwoPartEntry(raw, lang, param);
  }

  /** `q=` in front of a numeral: no `;`, and the strip of `q` and `=`
      characters leaves just the numeral. */
  lemma QualityParam(num: string)
    requires QualityNumeral(num)
    ensures ';' !in "q=" + num
    ensures StripChars("q=" + num, {'q', '='}) == num
  {
    var param := "q=" + num;
    assert forall i :: 2 <= i < |param| ==> param[i] == num[i - 2];
    var chars := {'q', '='};
    assert param[1..] == "=" + num;
    assert ("=" + num)[1..] == num;
    assert StripChars(num, chars) == num;
    assert StripChars("=" + num, chars) == num;
  }

  /** A whole number, a point and digits: only digits, underscores and the
      point, with a digit at each end. */
  lemma PointedNumeral(w: nat, f: string)
    requires |f| >= 1 && AllDigits(f)
    ensures QualityNumeral(NatToString(w) + "." + f)
  {
    var whole := NatToString(w);
    NatToStringValue(w);
    var num := whole + "." + f;
    forall i | 0 <= i < |num|
      ensures num[i] == '.' || IsDigit(num[i]) || num[i] == '_'
    {
      if i < |whole| { assert num[i] == whole[i]; }
      else if i > |whole| { assert num[i] == f[i - |whole| - 1]; }
    }
    assert num[|num| - 1] == f[|f| - 1];
  }

  /** An entry of two parts is its language with the parameter's quality. */
  lemma TwoPartEntry(raw: string, head: string, param: string)
    requires Split(raw, ';') == [head, param]
    ensures ParseEntry(raw) == WithQuality(head, param)
  {
  }

  /** The list the loop builds: the entries that parse, in header order. */
  function Entries(parts: seq<string>): (es: seq<Preference>)
    ensures |es| <= |parts|
  {
    if parts == [] then []
    else
      var last := ParseEntry(parts[|parts| - 1]);
      Entries(parts[..|parts| - 1]) + (if last.Some? then [last.value] else [])
  }

  /** One more part of the header adds its entry when it parses. */
  lemma EntriesSnoc(parts: seq<string>, i: nat)
    requires i < |parts|
    ensures Entries(parts[..i + 1]) == Entries(parts[..i])
      + (if ParseEntry(parts[i]).Some? then [ParseEntry(parts[i]).value] else [])
  {
    assert parts[..i + 1][..i] == parts[..i];
  }

  // ---- the stable sort -----------------------------------------------------------

  /** Quality values never increase along `s`. */
  predicate SortedByQ(s: seq<Preference>) {
    forall i, j :: 0 <= i < j < |s| ==> s[i].q >= s[j].q
  }

  /** Puts `e` in front of the first element whose quality is not above
      its own, so that it stays ahead of the equal ones that follow it. */
  function Insert(e: Preference, s: seq<Preference>): (r: seq<Preference>)
    ensures multiset(r) == multiset(s) + multiset{e}
    ensures |r| == |s| + 1
  {
    if s == [] || e.q >= s[0].q then [e] + s
    else
      assert s == [s[0]] + s[1..];
      [s[0]] + Insert(e, s[1..])
  }

  /** `languages.sort(key=q, reverse=True)`: Python's sort is stable, and
      reversing keeps equal elements in their original order, which is
      what this insertion sort does. */
  function SortByQ(es: seq<Preference>): (r: seq<Preference>)
    ensures multiset(r) == multiset(es)
    ensures |r| == |es|
  {
    if es == [] then []
    else
      assert es == [es[0]] + es[1..];
      Insert(es[0], SortByQ(es[1..]))
  }

  /** Inserting keeps every quality under a common bound. */
  lemma {:induction false} InsertBounded(e: Preference, s: seq<Preference>, b: real)
    requires e.q <= b
    requires forall i :: 0 <= i < |s| ==> s[i].q <= b
    ensures forall j :: 0 <= j < |Insert(e, s)| ==> Insert(e, s)[j].q <= b
    decreases |s|
  {
    if s != [] && e.q < s[0].q {
      InsertBounded(e, s[1..], b);
    }
  }

  lemma {:induction false} InsertSorted(e: Preference, s: seq<Preference>)
    requires SortedByQ(s)
    ensures SortedByQ(Insert(e, s))
    decreases |s|
  {
    if s != [] && e.q < s[0].q {
      InsertSorted(e, s[1..]);
      InsertBounded(e, s[1..], s[0].q);
    }
  }

  /** The sort puts quality values in non-increasing order. */
  lemma {:induction false} SortIsSorted(es: seq<Preference>)
    ensures SortedByQ(SortByQ(es))
    decreases |es|
  {
    if es != [] {
      SortIsSorted(es[1..]);
      InsertSorted(es[0], SortByQ(es[1..]));
    }
  }

  // ---- the choice ------------------------------------------------------------------

  /** The scan after the sort: the first entry with a supported language. */
  function FirstSupported(s: seq<Preference>): (r: Option<Preference>)
    ensures r.Some? ==> r.value in s && Supported(r.value.language)
    ensures r.None? <==> forall i :: 0 <= i < |s| ==> !Supported(s[i].language)
  {
    if s == [] then None
    else if Supported(s[0].language) then Some(s[0])
    else
      var r := FirstSupported(s[1..]);
      assert forall i :: 1 <= i < |s| ==> s[i] == s[1..][i - 1];
      r
  }

  /** The reference choice, on the entries in header order: the earliest
      supported entry among those of highest quality. */
  function BestIndex(es: seq<Preference>): (r: Option<nat>)
    ensures r.Some? ==> r.value < |es|
  {
    if es == [] then None
    else
      var b := BestIndex(es[1..]);
      if Supported(es[0].language) && (b.None? || es[0].q >= es[b.value + 1].q) then Some(0)
      else if b.None? then None
      else Some(b.value + 1)
  }

  /** `BestIndex` finds a supported entry exactly when there is one; its
      quality is the highest of any supported entry, and every supported
      entry before it has a strictly lower quality. */
  lemma {:induction false} BestIndexSpec(es: seq<Preference>)
    ensures BestIndex(es).None? <==> forall i :: 0 <= i < |es| ==> !Supported(es[i].language)
    ensures BestIndex(es).Some? ==> Supported(es[BestIndex(es).value].language)
    ensures BestIndex(es).Some? ==>
      forall i :: 0 <= i < |es| && Supported(es[i].language) ==> es[i].q <= es[BestIndex(es).value].q
    ensures BestIndex(es).Some? ==>
      forall i :: 0 <= i < BestIndex(es).value && Supported(es[i].language) ==> es[i].q < es[BestIndex(es).value].q
    decreases |es|
  {
    if es != [] {
      BestIndexSpec(es[1..]);
      assert forall i :: 1 <= i < |es| ==> es[i] == es[1..][i - 1];
    }
  }

  lemma FirstSupportedBound(s: seq<Preference>)
    requires SortedByQ(s) && FirstSupported(s).Some?
    ensures FirstSupported(s).value.q <= s[0].q
  {
  }

  /** Inserting into a sorted list changes the scan's answer only when the
      new entry is supported and at least as good as the old answer. */
  lemma {:induction false} InsertFirst(e: Preference, s: seq<Preference>)
    requires SortedByQ(s)
    ensures FirstSupported(Insert(e, s)) ==
      if Supported(e.language) && (FirstSupported(s).None? || e.q >= FirstSupported(s).value.q)
      then Some(e) else FirstSupported(s)
    decreases |s|
  {
    if s == [] {
    } else if e.q >= s[0].q {
      assert Insert(e, s) == [e] + s;
      assert ([e] + s)[1..] == s;
      if FirstSupported(s).Some? { FirstSupportedBound(s); }
    } else {
      assert Insert(e, s) == [s[0]] + Insert(e, s[1..]);
      assert ([s[0]] + Insert(e, s[1..]))[1..] == Insert(e, s[1..]);
      if !Supported(s[0].language) {
        InsertFirst(e, s[1..]);
      }
    }
  }

  /** Sorting and then scanning picks the reference choice: the sort's
      stability is what makes ties go to the earlier entry. */
  lemma {:induction false} SortThenScan(es: seq<Preference>)
    ensures FirstSupported(SortByQ(es)) ==
      if BestIndex(es).Some? then Some(es[BestIndex(es).value]) else None
    decreases |es|
  {
    if es != [] {
      SortThenScan(es[1..]);
      SortIsSorted(es[1..]);
      InsertFirst(es[0], SortByQ(es[1..]));
    }
  }

  /** What `_parse_accept_language` answers for `header`. */
  function Negotiate(header: string, defaultLanguage: string): string {
    if header == [] then defaultLanguage
    else
      var choice := FirstSupported(SortByQ(Entries(Split(header, ','))));
      if choice.Some? then choice.value.language else defaultLanguage
  }

  /** The answer is a supported language or the default one; it is the
      default exactly when no entry that parses names a supported
      language; otherwise it is the language of the earliest entry of
      highest quality among the supported ones. */
  lemma NegotiateChoosesBest(header: string, defaultLanguage: string)
    ensures Supported(Negotiate(header, defaultLanguage)) || Negotiate(header, defaultLanguage) == defaultLanguage
    ensures header == [] ==> Negotiate(header, defaultLanguage) == defaultLanguage
    ensures header != [] ==>
      var es := Entries(Split(header, ','));
      Negotiate(header, defaultLanguage) ==
        if BestIndex(es).Some? then es[BestIndex(es).value].language else defaultLanguage
  {
    if header != [] {
      SortThenScan(Entries(Split(header, ',')));
    }
  }

  class LocalizationMiddleware {
    const defaultLanguage: string
    const supportedLanguages: seq<string> := SupportedLanguages

    /** The default language comes from the translation package, which is
        not part of this model. */
    constructor (defaultLanguage: string)
      ensures this.defaultLanguage == defaultLanguage
    {
      this.defaultLanguage := defaultLanguage;
    }

    /** Collects the entries that parse, sorts them by quality and returns
        the first supported language, or the default one. */
    method ParseAcceptLanguage(header: string) returns (lang: string)
      ensures lang == Negotiate(header, defaultLanguage)
    {
      if header == [] {
        return defaultLanguage;
      }
      var languages := Collect(Split(header, ','));
      languages := SortByQ(languages);
      var choice := Scan(languages);
      lang := if choice.Some? then choice.value.language else defaultLanguage;
    }

    /** The parsing loop: the entries that parse, in header order. */
    method Collect(parts: seq<string>) returns (languages: seq<Preference>)
      ensures languages == Entries(parts)
    {
      languages := [];
      var i := 0;
      while i < |parts|
        invariant 0 <= i <= |parts|
        invariant languages == Entries(parts[..i])
      {
        var entry := ParseEntry(parts[i]);
        EntriesSnoc(parts, i);
        if entry.Some? {
          languages := languages + [entry.value];
        }
        i := i + 1;
      }
      assert parts[..|parts|] == parts;
    }

    /** The scan of the sorted entries for the first supported language. */
    method Scan(languages: seq<Preference>) returns (choice: Option<Preference>)
      ensures choice == FirstSupported(languages)
    {
      var k := 0;
      while k < |languages|
        invariant 0 <= k <= |languages|
        invariant FirstSupported(languages) == FirstSupported(languages[k..])
      {
        if languages[k].language in supportedLanguages {
          return Some(languages[k]);
        }
        assert languages[k..][1..] == languages[k + 1..];
        k := k + 1;
      }
      choice := None;
    }
  }

  // ---- security headers ----------------------------------------------------------

  /** The fixed headers, in the order the middleware writes them. */
  const SecurityHeaders: seq<(string, string)> := [
    ("X-Content-Type-Options", "nosniff"),
    ("X-Frame-Options", "DENY"),
    ("X-XSS-Protection", "1; mode=block"),
    ("Referrer-Policy", "strict-origin-when-cross-origin"),
    ("Content-Security-Policy", ContentSecurityPolicy),
    ("Permissions-Policy", "camera=(), microphone=(), geolocation=(), payment=()"),
    ("Strict-Transport-Security", "max-age=31536000; includeSubDomains")]

  /** The policy's directives, each a name and its sources; the policy
      is the directives joined with `; `. */
  const CspDirectives: seq<(string, seq<string>)> := [
    ("default-src", ["'self'"]),
    ("script-src", ["'self'", "'unsafe-inline'", "cdn.jsdelivr.net"]),
    ("style-src", ["'self'", "'unsafe-inline'", "cdn.jsdelivr.net"]),
    ("img-src", ["'self'", "data:"]),
    ("font-src", ["'self'", "cdn.jsdelivr.net"]),
    ("connect-src", ["'self'"])]

  function DirectiveText(d: (string, seq<string>)): string {
    d.0 + " " + Join(" ", d.1)
  }

  const ContentSecurityPolicy: string :=
    Join("; ", seq(|CspDirectives|, i requires 0 <= i < |CspDirectives| => DirectiveText(CspDirectives[i])))

  /** A response's headers, keyed by lower-cased name: header names are
      case-insensitive and the response stores them lower-cased. */
  class Response {
    var headers: map<string, string>

    constructor (headers: map<string, string>)
      ensures this.headers == headers
    {
      this.headers := headers;
    }
  }

  /** Writing `pairs` into `h` one after the other. */
  function Overlay(h: map<string, string>, pairs: seq<(string, string)>): (r: map<string, string>)
    ensures forall k :: k in h ==> k in r
  {
    if pairs == [] then h
    else
      var p := pairs[|pairs| - 1];
      Overlay(h, pairs[..|pairs| - 1])[Lower(p.0) := p.1]
  }

  /** No two of `pairs` name the same header. */
  predicate DistinctNames(pairs: seq<(string, string)>) {
    forall i, j :: 0 <= i < j < |pairs| ==> Lower(pairs[i].0) != Lower(pairs[j].0)
  }

  predicate Named(pairs: seq<(string, string)>, k: string) {
    exists i :: 0 <= i < |pairs| && Lower(pairs[i].0) == k
  }

  /** Every header of `pairs` ends up with its value, overwriting any
      earlier one; every other header keeps its presence and its value. */
  lemma {:induction false} OverlaySpec(h: map<string, string>, pairs: seq<(string, string)>)
    requires DistinctNames(pairs)
    ensures forall i :: 0 <= i < |pairs| ==> Lower(pairs[i].0) in Overlay(h, pairs) && Overlay(h, pairs)[Lower(pairs[i].0)] == pairs[i].1
    ensures forall k :: !Named(pairs, k) ==> (k in Overlay(h, pairs) <==> k in h)
    ensures forall k :: !Named(pairs, k) && k in h ==> Overlay(h, pairs)[k] == h[k]
    decreases |pairs|
  {
    if pairs != [] {
      var init := pairs[..|pairs| - 1];
      OverlaySpec(h, init);
      assert forall i :: 0 <= i < |init| ==> init[i] == pairs[i];
    }
  }

  lemma LowerDiffers(a: string, b: string)
    requires |a| != |b| || (|a| > 0 && |b| > 0 && LowerChar(a[0]) != LowerChar(b[0]))
    ensures Lower(a) != Lower(b)
  {
    if |a| == |b| {
      assert Lower(a)[0] != Lower(b)[0];
    }
  }

  /** The header names the middleware writes are distinct even ignoring case. */
  lemma SecurityHeaderNamesDistinct()
    ensures DistinctNames(SecurityHeaders)
  {
    var h := SecurityHeaders;
    assert |h[0].0| == 22 && |h[1].0| == 15 && |h[2].0| == 16 && |h[3].0| == 15;
    assert |h[4].0| == 23 && |h[5].0| == 18 && |h[6].0| == 25;
    assert h[1].0[0] == 'X' && h[3].0[0] == 'R';
    forall i, j | 0 <= i < j < |h|
      ensures Lower(h[i].0) != Lower(h[j].0)
    {
      LowerDiffers(h[i].0, h[j].0);
    }
  }

  /** The policy allows inline scripts and styles: `'unsafe-inline'` is
      a source of `script-src` and of `style-src`, and so occurs in the
      header value. */
  lemma PolicyAllowsInline()
    ensures Contains(ContentSecurityPolicy, "'unsafe-inline'")
    ensures CspDirectives[1].0 == "script-src" && "'unsafe-inline'" in CspDirectives[1].1
    ensures CspDirectives[2].0 == "style-src" && "'unsafe-inline'" in CspDirectives[2].1
  {
    var texts := seq(|CspDirectives|, i requires 0 <= i < |CspDirectives| => DirectiveText(CspDirectives[i]));
    var script := CspDirectives[1];
    JoinContainsPart("; ", texts, 1);
    ContainsMiddle(script.0 + " ", Join(" ", script.1), []);
    assert script.0 + " " + Join(" ", script.1) + [] == texts[1];
    JoinContainsPart(" ", script.1, 1);
    ContainsTrans(texts[1], Join(" ", script.1), "'unsafe-inline'");
    ContainsTrans(ContentSecurityPolicy, texts[1], "'unsafe-inline'");
  }

  /** After the overlay every fixed header has its fixed value, whatever
      the response had under that name, and no other header changes. */
  lemma SecurityHeadersApplied(h: map<string, string>)
    ensures forall i :: 0 <= i < |SecurityHeaders| ==>
      Lower(SecurityHeaders[i].0) in Overlay(h, SecurityHeaders)
      && Overlay(h, SecurityHeaders)[Lower(SecurityHeaders[i].0)] == SecurityHeaders[i].1
    ensures forall k :: !Named(SecurityHeaders, k) ==> (k in Overlay(h, SecurityHeaders) <==> k in h)
    ensures forall k :: !Named(SecurityHeaders, k) && k in h ==> Overlay(h, SecurityHeaders)[k] == h[k]
  {
    SecurityHeaderNamesDistinct();
    OverlaySpec(h, SecurityHeaders);
  }

  class SecurityHeadersMiddleware {
    const securityHeaders: seq<(string, string)>

    constructor ()
      ensures securityHeaders == SecurityHeaders
    {
      securityHeaders := SecurityHeaders;
    }

    /** Sets every fixed header on the response, one after the other. */
    method Dispatch(response: Response)
      modifies response
      ensures response.headers == Overlay(old(response.headers), securityHeaders)
    {
      var i := 0;
      while i < |securityHeaders|
        invariant 0 <= i <= |securityHeaders|
        invariant response.headers == Overlay(old(response.headers), securityHeaders[..i])
      {
        var (name, value) := securityHeaders[i];
        assert securityHeaders[..i + 1][..i] == securityHeaders[..i];
        response.headers := response.headers[Lower(name) := value];
        i := i + 1;
      }
      assert securityHeaders[..i] == securityHeaders;
    }
  }
}
