/** The text handling of `image_model`: strip the model's reply, refuse it when
    nothing is left, parse it as JSON, and when that fails parse the first match of
    the regular expression `\{[\s\S]*\}` instead. The JSON parser `json.loads` is a
    parameter: it returns `None` where the real one raises. */
module ModelOutput {
  import opened Wrappers

  /** Python's `str.isspace`: the characters `str.strip()` removes. */
  predicate IsSpace(c: char) {
    || '\t' <= c <= '\r'
    || '\U{1C}' <= c <= '\U{1F}'
    || c == ' '
    || c == '\U{85}'
    || c == '\U{A0}'
    || c == '\U{1680}'
    || '\U{2000}' <= c <= '\U{200A}'
    || c == '\U{2028}'
    || c == '\U{2029}'
    || c == '\U{202F}'
    || c == '\U{205F}'
    || c == '\U{3000}'
  }

  /** `s` without its leading whitespace. */
  function StripLeading(s: string): (r: string)
    ensures |r| <= |s| && r == s[|s| - |r|..]
    ensures forall k :: 0 <= k < |s| - |r| ==> IsSpace(s[k])
    ensures r != [] ==> !IsSpace(r[0])
  {
    if s != [] && IsSpace(s[0]) then StripLeading(s[1..]) else s
  }

  /** `s` without its trailing whitespace. */
  function StripTrailing(s: string): (r: string)
    ensures |r| <= |s| && r == s[..|r|]
    ensures forall k :: |r| <= k < |s| ==> IsSpace(s[k])
    ensures r != [] ==> !IsSpace(r[|r| - 1])
  {
    if s != [] && IsSpace(s[|s| - 1]) then StripTrailing(s[..|s| - 1]) else s
  }

  /** `str.strip()`. */
  function Strip(s: string): string {
    StripTrailing(StripLeading(s))
  }

  /** The reply strips to nothing exactly when it is all whitespace; otherwise the
      stripped text neither starts nor ends with whitespace, and stripping again
      changes nothing. */
  lemma StripProperties(s: string)
    ensures Strip(s) == [] <==> forall k :: 0 <= k < |s| ==> IsSpace(s[k])
    ensures Strip(s) != [] ==> !IsSpace(Strip(s)[0]) && !IsSpace(Strip(s)[|Strip(s)| - 1])
    ensures Strip(Strip(s)) == Strip(s)
  {
    var l := StripLeading(s);
    var r := StripTrailing(l);
    if r != [] {
      assert r[0] == l[0];
    } else {
      forall k | 0 <= k < |s| ensures IsSpace(s[k]) {
        if k >= |s| - |l| {
          assert s[k] == l[k - (|s| - |l|)];
        }
      }
    }
    assert l != [] ==> l[0] == s[|s| - |l|];
  }

  /** The index of the first `c` in `s`. */
  function FirstIndex(s: string, c: char): (r: Option<nat>)
    ensures r.None? <==> c !in s
    ensures r.Some? ==> r.value < |s| && s[r.value] == c
    ensures r.Some? ==> forall k :: 0 <= k < r.value ==> s[k] != c
  {
    if s == [] then None
    else if s[0] == c then Some(0)
    else
      match FirstIndex(s[1..], c)
      case None => None
      case Some(i) => Some(i + 1)
  }

  /** The index of the last `c` in `s`. */
  function LastIndex(s: string, c: char): (r: Option<nat>)
    ensures r.None? <==> c !in s
    ensures r.Some? ==> r.value < |s| && s[r.value] == c
    ensures r.Some? ==> forall k :: r.value < k < |s| ==> s[k] != c
  {
    if s == [] then None
    else if s[|s| - 1] == c then Some(|s| - 1)
    else LastIndex(s[..|s| - 1], c)
  }

  /** `re.findall(r'\{[\s\S]*\}', text)[0]`, or `None` when the list is empty: from
      the first `{` to the last `}`, both included, provided that `}` comes after
      that `{`. Braces in between need not balance. */
  function BraceCandidate(text: string): Option<string> {
    match (FirstIndex(text, '{'), LastIndex(text, '}'))
    case (Some(i), Some(j)) => if i < j then Some(text[i..j + 1]) else None
    case _ => None
  }

  /** The pattern `\{[\s\S]*\}` matches exactly `text[i..j + 1]`. */
  ghost predicate PatternMatches(text: string, i: int, j: int) {
    0 <= i < j < |text| && text[i] == '{' && text[j] == '}'
  }

  /** The first element of `re.findall` for that pattern: the match that starts
      leftmost, and among those the longest, since `[\s\S]*` is greedy. */
  ghost predicate FirstGreedyMatch(text: string, i: int, j: int) {
    && PatternMatches(text, i, j)
    && (forall i', j' :: PatternMatches(text, i', j') ==> i <= i')
    && (forall j' :: PatternMatches(text, i, j') ==> j' <= j)
  }

  /** `BraceCandidate` is the regular expression's first match: there is none
      exactly when no `{` has a `}` after it, and otherwise it is the leftmost,
      longest match. */
  lemma BraceCandidateIsFirstMatch(text: string)
    ensures BraceCandidate(text).None? <==> forall i, j :: !PatternMatches(text, i, j)
    ensures forall i, j :: FirstGreedyMatch(text, i, j) ==> BraceCandidate(text) == Some(text[i..j + 1])
  {
    var fi, lj := FirstIndex(text, '{'), LastIndex(text, '}');
    forall i, j | PatternMatches(text, i, j)
      ensures fi.Some? && lj.Some? && fi.value <= i < j <= lj.value
    {
      assert text[i] in text && text[j] in text;
    }
    if fi.Some? && lj.Some? && fi.value < lj.value {
      assert PatternMatches(text, fi.value, lj.value);
    }
  }

  /** When there is a candidate, it is the regular expression's first match. */
  lemma BraceCandidateMatch(text: string) returns (i: nat, j: nat)
    requires BraceCandidate(text).Some?
    ensures FirstGreedyMatch(text, i, j)
    ensures BraceCandidate(text) == Some(text[i..j + 1])
  {
    i, j := FirstIndex(text, '{').value, LastIndex(text, '}').value;
  }

  // ---------------------------------------------------------------------------
  // The two-tier parse
  // ---------------------------------------------------------------------------

  /** The `ValueError`s `image_model` raises itself, and the `json.loads` error
      that escapes when the fallback candidate does not parse. */
  datatype ParseError =
    | EmptyOutput                     // nothing left after stripping
    | NotJson(text: string)           // strict parse failed and no candidate
    | CandidateInvalid(candidate: string)  // the candidate did not parse either

  /** The outcome, and the texts handed to `json.loads`, in order. */
  datatype ParseRun<D> = ParseRun(outcome: Result<D, ParseError>, attempts: seq<string>)

  /** `image_model` from the model's reply on: strip; raise on empty text before any
      parse; strict parse; else the regular-expression fallback. */
  function ParseModelOutput<D>(content: string, loads: string -> Option<D>): (r: ParseRun<D>)
    ensures r.outcome == Err(EmptyOutput) <==> Strip(content) == []
    ensures r.attempts == [] <==> Strip(content) == []
    ensures |r.attempts| <= 2
    ensures r.attempts != [] ==> r.attempts[0] == Strip(content)
    ensures |r.attempts| == 2 ==>
      loads(Strip(content)).None? && BraceCandidate(Strip(content)) == Some(r.attempts[1])
    ensures r.outcome.Ok? ==> r.attempts != [] && loads(r.attempts[|r.attempts| - 1]) == Some(r.outcome.value)
    ensures r.outcome.Err? && r.attempts != [] ==> loads(r.attempts[|r.attempts| - 1]).None?
    ensures r.outcome.Err? && r.outcome.error.NotJson? ==>
      r.attempts == [Strip(content)] && BraceCandidate(Strip(content)).None?
    ensures Strip(content) != [] && loads(Strip(content)).Some? ==>
      r == ParseRun(Ok(loads(Strip(content)).value), [Strip(content)])
    ensures Strip(content) != [] && loads(Strip(content)).None? && BraceCandidate(Strip(content)).Some? ==>
      |r.attempts| == 2
    ensures Strip(content) != [] && loads(Strip(content)).None? && BraceCandidate(Strip(content)).None? ==>
      r.outcome == Err(NotJson(Strip(content)))
    ensures |r.attempts| == 2 && r.outcome.Err? ==> r.outcome == Err(CandidateInvalid(r.attempts[1]))
  {
    var text := Strip(content);
    if text == [] then ParseRun(Err(EmptyOutput), [])
    else
      match loads(text)
      case Some(d) => ParseRun(Ok(d), [text])
      case None =>
        match BraceCandidate(text)
        case None => ParseRun(Err(NotJson(text)), [text])
        case Some(candidate) =>
          match loads(candidate)
          case Some(d) => ParseRun(Ok(d), [text, candidate])
          case None => ParseRun(Err(CandidateInvalid(candidate)), [text, candidate])
  }

  /** Whitespace-only output raises before any parse, whatever the parser does. */
  lemma EmptyOutputNeverParses<D>(content: string, loads: string -> Option<D>)
    requires forall k :: 0 <= k < |content| ==> IsSpace(content[k])
    ensures ParseModelOutput(content, loads) == ParseRun(Err(EmptyOutput), [])
  {
    StripProperties(content);
  }

  /** Text that neither starts nor ends with whitespace is left as it is. */
  lemma StripKeeps(s: string)
    requires s != [] && !IsSpace(s[0]) && !IsSpace(s[|s| - 1])
    ensures Strip(s) == s
  {
  }

  /** Text before the first `{` is dropped; an object that runs to the end of the
      text is the candidate. */
  lemma BraceCandidateAfterPrefix(prefix: string, obj: string)
    requires '{' !in prefix
    requires |obj| >= 2 && obj[0] == '{' && obj[|obj| - 1] == '}'
    ensures BraceCandidate(prefix + obj) == Some(obj)
  {
    var text := prefix + obj;
    var fi := FirstIndex(text, '{');
    assert text[|prefix|] == '{';
    assert forall k :: 0 <= k < |prefix| ==> text[k] == prefix[k];
    assert LastIndex(text, '}') == Some(|text| - 1);
    assert text[|prefix|..|text|] == obj;
  }

  /** The reply quoted as an example of conversational text around the object. */
  const ExamplePrefix: string := "Here is the result: "
  const ExampleObject: string := "{" + "\"people_count\": 1, \"music_genre\": [\"Hip-Hop\"]" + "}"

  /** Conversational text around the JSON object is tolerated: with the reply
      `Here is the result: {"people_count": 1, "music_genre": ["Hip-Hop"]}`, which
      the strict parse refuses, the object itself is parsed. */
  lemma WrappedObjectRecovered<D>(loads: string -> Option<D>, data: D)
    requires loads(ExamplePrefix + ExampleObject) == None
    requires loads(ExampleObject) == Some(data)
    ensures ParseModelOutput(ExamplePrefix + ExampleObject, loads)
         == ParseRun(Ok(data), [ExamplePrefix + ExampleObject, ExampleObject])
  {
    var text := ExamplePrefix + ExampleObject;
    assert text[0] == 'H' && text[|text| - 1] == '}';
    StripKeeps(text);
    assert '{' !in ExamplePrefix;
    assert ExampleObject[0] == '{';
    assert ExampleObject[|ExampleObject| - 1] == '}';
    BraceCandidateAfterPrefix(ExamplePrefix, ExampleObject);
  }
}
