/** The response clean-up of `callClaudeJSON` in src/composables/useAI.js:
    trim, strip a leading ```` ```json ```` or ```` ``` ```` fence and a
    trailing ```` ``` ```` fence, cut out the first bracketed span and hand
    it (or, when there is none, the whole cleaned text) to `JSON.parse`. */
module JsonRecovery {
  import opened Wrappers
  import opened Strings
  import opened JsValues

  /** The instruction appended to every prompt whose answer must be JSON. */
  const JsonOnlySuffix: string := "\n\n**重要**：请直接返回JSON对象，不要添加任何```json```标记或其他说明文字，只返回纯JSON内容。"

  const Fence: string := "```"

  predicate StartsWith(s: string, p: string) {
    |p| <= |s| && s[..|p|] == p
  }

  predicate EndsWith(s: string, p: string) {
    |p| <= |s| && s[|s| - |p|..] == p
  }

  /** ASCII letters compared without case, as the `i` flag does for `json`. */
  function LowerAscii(c: char): char {
    if 'A' <= c <= 'Z' then ((c as int) + 32) as char else c
  }

  predicate IsJsonTag(s: string) {
    |s| == 4 && LowerAscii(s[0]) == 'j' && LowerAscii(s[1]) == 's'
    && LowerAscii(s[2]) == 'o' && LowerAscii(s[3]) == 'n'
  }

  /** `s.replace(/^```json\s*` + `/i, '')`. */
  function StripJsonFence(s: string): (r: string)
    ensures r == s || (|s| >= 7 && StartsWith(s, Fence) && IsJsonTag(s[3..7]) && r == TrimStart(s[7..]))
    ensures |r| <= |s| && r == s[|s| - |r|..]
  {
    if |s| >= 7 && StartsWith(s, Fence) && IsJsonTag(s[3..7]) then TrimStart(s[7..]) else s
  }

  /** `s.replace(/^```\s*` + `/, '')`. */
  function StripFence(s: string): (r: string)
    ensures |r| <= |s| && r == s[|s| - |r|..]
  {
    if StartsWith(s, Fence) then TrimStart(s[3..]) else s
  }

  /** `s.replace(/\s*```$/, '')`: the final fence and the whitespace before it. */
  function StripTrailingFence(s: string): (r: string)
    ensures |r| <= |s| && r == s[..|r|]
  {
    if EndsWith(s, Fence) then TrimEnd(s[..|s| - 3]) else s
  }

  /** Cutting the first `k` characters and trimming the start removes
      only whitespace after the cut. */
  lemma TrimStartAfter(s: string, k: nat)
    requires k <= |s|
    ensures var r := TrimStart(s[k..]);
            && |r| <= |s| - k && s == s[..k] + s[k..|s| - |r|] + r
            && AllWhitespace(s[k..|s| - |r|]) && (r == [] || !IsWhitespace(r[0]))
  {
    var t := s[k..];
    var r := TrimStart(t);
    TrimStartDropsWhitespace(t);
    SuffixParts(s, k, |s| - |r|);
  }

  /** Cutting `s` at `k <= j` into three parts and looking at `s[k..]`. */
  lemma SuffixParts(s: string, k: nat, j: nat)
    requires k <= j <= |s|
    ensures s[k..][..j - k] == s[k..j] && s[k..][j - k..] == s[j..]
    ensures s == s[..k] + s[k..j] + s[j..]
  {
  }

  /** A leading ```` ```json ```` fence (any case) is removed together
      with the whitespace after it, and the text after that whitespace is
      kept whole; without that fence nothing changes. */
  lemma StripJsonFenceRemoves(s: string)
    ensures var r := StripJsonFence(s);
            if |s| >= 7 && StartsWith(s, Fence) && IsJsonTag(s[3..7]) then
              && |r| <= |s| - 7 && s == s[..7] + s[7..|s| - |r|] + r
              && AllWhitespace(s[7..|s| - |r|]) && (r == [] || !IsWhitespace(r[0]))
            else r == s
  {
    if |s| >= 7 && StartsWith(s, Fence) && IsJsonTag(s[3..7]) {
      TrimStartAfter(s, 7);
    }
  }

  /** A leading ```` ``` ```` fence is removed together with the
      whitespace after it; without one nothing changes. */
  lemma StripFenceRemoves(s: string)
    ensures var r := StripFence(s);
            if StartsWith(s, Fence) then
              && |r| <= |s| - 3 && s == Fence + s[3..|s| - |r|] + r
              && AllWhitespace(s[3..|s| - |r|]) && (r == [] || !IsWhitespace(r[0]))
            else r == s
  {
    if StartsWith(s, Fence) {
      TrimStartAfter(s, 3);
    }
  }

  /** A trailing ```` ``` ```` fence is removed together with the
      whitespace before it; without one nothing changes. */
  lemma StripTrailingFenceRemoves(s: string)
    ensures var r := StripTrailingFence(s);
            if EndsWith(s, Fence) then
              && |r| <= |s| - 3 && s == r + s[|r|..|s| - 3] + Fence
              && AllWhitespace(s[|r|..|s| - 3]) && (r == [] || !IsWhitespace(r[|r| - 1]))
            else r == s
  {
    if EndsWith(s, Fence) {
      var t, r := s[..|s| - 3], StripTrailingFence(s);
      TrimEndDropsWhitespace(t);
      assert t[|r|..] == s[|r|..|s| - 3];
      assert s == r + s[|r|..|s| - 3] + Fence by {
        assert t == r + t[|r|..];
        assert s == t + s[|s| - 3..];
      }
    }
  }

  /** The cleaned response. */
  function CleanResponse(response: string): string {
    StripTrailingFence(StripFence(StripJsonFence(Trim(response))))
  }

  /** Cleaning only removes text from the two ends: the result is a
      contiguous piece of the raw response. */
  lemma CleanResponseInside(response: string)
    ensures Contains(response, CleanResponse(response))
  {
    var t := Trim(response);
    TrimInside(response);
    FencesInside(t);
    ContainsTransitive(response, t, CleanResponse(response));
  }

  lemma FencesInside(t: string)
    ensures Contains(t, StripTrailingFence(StripFence(StripJsonFence(t))))
  {
    var b := StripFence(StripJsonFence(t));
    LeadingFencesInside(t);
    PrefixInside(b, StripTrailingFence(b));
    ContainsTransitive(t, b, StripTrailingFence(b));
  }

  lemma LeadingFencesInside(t: string)
    ensures Contains(t, StripFence(StripJsonFence(t)))
  {
    var a := StripJsonFence(t);
    SuffixInside(t, a);
    SuffixInside(a, StripFence(a));
    ContainsTransitive(t, a, StripFence(a));
  }

  lemma TrimInside(s: string)
    ensures Contains(s, Trim(s))
  {
    var t := TrimStart(s);
    var r := TrimEnd(t);
    var i := |s| - |t|;
    assert s[i..i + |r|] == t[..|r|];
    assert OccursAt(s, r, i);
  }

  lemma SuffixInside(s: string, r: string)
    requires |r| <= |s| && r == s[|s| - |r|..]
    ensures Contains(s, r)
  {
    assert OccursAt(s, r, |s| - |r|);
  }

  lemma PrefixInside(s: string, r: string)
    requires |r| <= |s| && r == s[..|r|]
    ensures Contains(s, r)
  {
    assert OccursAt(s, r, 0);
  }

  lemma ContainsTransitive(a: string, b: string, c: string)
    requires Contains(a, b) && Contains(b, c)
    ensures Contains(a, c)
  {
    var i :| 0 <= i <= |a| && OccursAt(a, b, i);
    var j :| 0 <= j <= |b| && OccursAt(b, c, j);
    forall t | 0 <= t < |c| ensures a[i + j + t] == c[t] {
      assert c[t] == b[j + t] == a[i + j + t];
    }
    assert a[i + j..i + j + |c|] == c;
    assert OccursAt(a, c, i + j);
  }

  // ---------------------------------------------------------------------------
  // The span /(\{[\s\S]*\}|\[[\s\S]*\])/

  function Closer(opener: char): char {
    if opener == '{' then '}' else ']'
  }

  /** A match of the span pattern can start at `p`: an opening brace or
      bracket with its own kind of closer somewhere after it. */
  predicate OpensSpan(s: string, p: nat) {
    p < |s| && (s[p] == '{' || s[p] == '[') && Closer(s[p]) in s[p + 1..]
  }

  /** The leftmost index from `from` on where a span starts. */
  function SpanStart(s: string, from: nat): (r: Option<nat>)
    requires from <= |s|
    ensures r.Some? ==> from <= r.value < |s| && OpensSpan(s, r.value)
    ensures r.Some? ==> forall q :: from <= q < r.value ==> !OpensSpan(s, q)
    ensures r.None? ==> forall q :: from <= q < |s| ==> !OpensSpan(s, q)
    decreases |s| - from
  {
    if from == |s| then None
    else if OpensSpan(s, from) then Some(from)
    else SpanStart(s, from + 1)
  }

  /** The index of the last occurrence of `c` in `s`. */
  function LastIndex(s: string, c: char): (r: Option<nat>)
    ensures r.Some? ==> r.value < |s| && s[r.value] == c
    ensures r.Some? ==> forall j :: r.value < j < |s| ==> s[j] != c
    ensures r.None? <==> c !in s
  {
    if s == [] then None
    else
      var r := LastIndex(s[1..], c);
      assert s == [s[0]] + s[1..];
      if r.Some? then Some(r.value + 1)
      else if s[0] == c then Some(0)
      else None
  }

  /** The text the span pattern matches, if any: from the leftmost
      possible start to the last closer of the same kind. */
  function FindSpan(s: string): (r: Option<string>)
    ensures r.Some? ==> |r.value| >= 2 && Contains(s, r.value)
    ensures r.Some? ==> (r.value[0] == '{' || r.value[0] == '[') && r.value[|r.value| - 1] == Closer(r.value[0])
    ensures r.None? <==> forall q :: 0 <= q < |s| ==> !OpensSpan(s, q)
  {
    match SpanStart(s, 0)
    case None => None
    case Some(b) =>
      var rest := s[b + 1..];
      var k := LastIndex(rest, Closer(s[b]));
      var e := b + 1 + k.value + 1;
      assert s[b..e][0] == s[b] && s[b..e][e - b - 1] == rest[k.value];
      assert OccursAt(s, s[b..e], b);
      Some(s[b..e])
  }

  /** The span is the widest one: nothing after it closes its kind. */
  lemma SpanEndsAtLastCloser(s: string)
    requires FindSpan(s).Some?
    ensures var b := SpanStart(s, 0).value;
            var e := b + |FindSpan(s).value|;
            && e <= |s| && FindSpan(s).value == s[b..e]
            && forall j :: e <= j < |s| ==> s[j] != Closer(s[b])
  {
    var b := SpanStart(s, 0).value;
    var rest := s[b + 1..];
    var k := LastIndex(rest, Closer(s[b])).value;
    assert forall j :: b + 1 + k + 1 <= j < |s| ==> s[j] == rest[j - b - 1];
  }

  // ---------------------------------------------------------------------------
  // Parsing

  /** The text `callClaudeJSON` hands to `JSON.parse`. */
  function ParseSource(response: string): (r: string)
    ensures Contains(response, r)
    ensures var clean := CleanResponse(response);
            r == if FindSpan(clean).Some? then FindSpan(clean).value else clean
  {
    var clean := CleanResponse(response);
    CleanResponseInside(response);
    match FindSpan(clean)
    case Some(span) => ContainsTransitive(response, clean, span); span
    case None => clean
  }

  /** The error `callClaudeJSON` throws when parsing fails: a fixed
      message with the first 200 characters of the raw response. */
  function JsonError(response: string): (m: string)
    ensures StartsWith(m, "AI返回的内容不是有效的JSON格式。响应内容：") && EndsWith(m, "...")
    ensures |m| == 24 + (if |response| <= 200 then |response| else 200) + 3
    ensures |response| <= 200 ==> m[24..|m| - 3] == response
    ensures |response| > 200 ==> m[24..224] == response[..200]
  {
    var header := "AI返回的内容不是有效的JSON格式。响应内容：";
    assert |header| == 24;
    header + Prefix(response, 200) + "..."
  }

  /** The parse step of `callClaudeJSON`, with `JSON.parse` given as
      `parse` (`None` when it throws). Whatever is returned was parsed from
      one contiguous piece of the response; every failure is reported
      with the same message, and a span that fails to parse is not retried
      as the whole text. */
  function ParseResponse(response: string, parse: string -> Option<Value>): (r: Result<Value>)
    ensures r.Ok? <==> parse(ParseSource(response)).Some?
    ensures r.Ok? ==> Some(r.value) == parse(ParseSource(response))
    ensures r.Ok? ==> exists t :: Contains(response, t) && parse(t) == Some(r.value)
    ensures r.Err? ==> r.message == JsonError(response)
  {
    var source := ParseSource(response);
    match parse(source)
    case Some(v) => Ok(v)
    case None => Err(JsonError(response))
  }

  // ---------------------------------------------------------------------------
  // Recovery properties

  lemma {:induction false} TrimStartPast(w: string, x: string)
    requires AllWhitespace(w) && (x == [] || !IsWhitespace(x[0]))
    ensures TrimStart(w + x) == x
    decreases |w|
  {
    if w != [] {
      assert w + x == [w[0]] + (w[1..] + x);
      TrimStartSkip(w[0], w[1..] + x);
      assert AllWhitespace(w[1..]) by {
        forall i | 0 <= i < |w| - 1
          ensures IsWhitespace(w[1..][i])
        {
          assert w[1..][i] == w[i + 1];
        }
      }
      TrimStartPast(w[1..], x);
    } else {
      assert w + x == x;
    }
  }

  lemma TrimStartSkip(c: char, rest: string)
    requires IsWhitespace(c)
    ensures TrimStart([c] + rest) == TrimStart(rest)
  {
    assert ([c] + rest)[1..] == rest;
  }

  lemma {:induction false} TrimEndPast(x: string, w: string)
    requires AllWhitespace(w) && (x == [] || !IsWhitespace(x[|x| - 1]))
    ensures TrimEnd(x + w) == x
    decreases |w|
  {
    if w != [] {
      var s := x + w;
      assert s[|s| - 1] == w[|w| - 1] && IsWhitespace(w[|w| - 1]);
      assert s[..|s| - 1] == x + w[..|w| - 1];
      TrimEndPast(x, w[..|w| - 1]);
    } else {
      assert x + w == x;
    }
  }

  /** A JSON object or array that fills the text is its own span. */
  lemma WholeSpan(body: string)
    requires |body| >= 2 && (body[0] == '{' || body[0] == '[') && body[|body| - 1] == Closer(body[0])
    ensures FindSpan(body) == Some(body)
  {
    assert body[1..][|body| - 2] == body[|body| - 1];
    assert OpensSpan(body, 0);
    assert body[0 + 1..] == body[1..];
    var k := LastIndex(body[1..], Closer(body[0])).value;
    assert k == |body| - 2;
    assert body[0..|body|] == body;
  }

  /** A fenced answer (```` ```json ````, any whitespace, an object or
      array, any whitespace, ```` ``` ````) cleans down to the body. */
  lemma CleanFenced(w1: string, body: string, w2: string)
    requires AllWhitespace(w1) && AllWhitespace(w2)
    requires |body| >= 1 && !IsWhitespace(body[0]) && body[0] != '`' && !IsWhitespace(body[|body| - 1])
    ensures CleanResponse("```json" + w1 + body + w2 + "```") == body
  {
    var s := "```json" + w1 + body + w2 + "```";
    var a := body + w2 + "```";
    FencedAnswerTrimmed(w1, body, w2);
    JsonFenceStripped(w1, body, w2);
    NoSecondFence(body, w2);
    ClosingFence(body, w2);
    CleanSteps(s, a, body);
  }

  lemma CleanSteps(s: string, a: string, body: string)
    requires Trim(s) == s && StripJsonFence(s) == a && StripFence(a) == a && StripTrailingFence(a) == body
    ensures CleanResponse(s) == body
  {
  }

  lemma JsonFenceStripped(w1: string, body: string, w2: string)
    requires AllWhitespace(w1) && |body| >= 1 && !IsWhitespace(body[0])
    ensures StripJsonFence("```json" + w1 + body + w2 + "```") == body + w2 + "```"
  {
    var a := body + w2 + "```";
    assert "```json" + w1 + body + w2 + "```" == "```json" + w1 + a;
    assert a[0] == body[0];
    OpeningFence(w1, a);
  }

  lemma FencedAnswerTrimmed(w1: string, body: string, w2: string)
    ensures var s := "```json" + w1 + body + w2 + "```"; Trim(s) == s
  {
    var s := "```json" + w1 + body + w2 + "```";
    FencedAnswerEnds(w1, body, w2);
    TrimmedEnds(s);
  }

  lemma FencedAnswerEnds(w1: string, body: string, w2: string)
    ensures var s := "```json" + w1 + body + w2 + "```"; |s| >= 1 && s[0] == '`' && s[|s| - 1] == '`'
  {
  }

  lemma NoSecondFence(body: string, w: string)
    requires |body| >= 1 && body[0] != '`'
    ensures StripFence(body + w + "```") == body + w + "```"
  {
    var a := body + w + "```";
    assert a[..3][0] == body[0];
  }

  lemma OpeningFence(w: string, rest: string)
    requires AllWhitespace(w) && (rest == [] || !IsWhitespace(rest[0]))
    ensures StripJsonFence("```json" + w + rest) == rest
  {
    var s := "```json" + w + rest;
    assert s[..3] == Fence;
    assert s[3] == 'j' && s[4] == 's' && s[5] == 'o' && s[6] == 'n';
    assert IsJsonTag(s[3..7]);
    assert s[7..] == w + rest;
    TrimStartPast(w, rest);
  }

  lemma ClosingFence(body: string, w: string)
    requires AllWhitespace(w) && (body == [] || !IsWhitespace(body[|body| - 1]))
    ensures StripTrailingFence(body + w + "```") == body
  {
    var a := body + w + "```";
    assert EndsWith(a, Fence) && a[..|a| - 3] == body + w;
    TrimEndPast(body, w);
  }

  /** ... and the body is what gets parsed, when it is an object or array. */
  lemma FencedJsonRecovered(w1: string, body: string, w2: string, parse: string -> Option<Value>)
    requires AllWhitespace(w1) && AllWhitespace(w2)
    requires |body| >= 2 && (body[0] == '{' || body[0] == '[') && body[|body| - 1] == Closer(body[0])
    ensures ParseSource("```json" + w1 + body + w2 + "```") == body
    ensures ParseResponse("```json" + w1 + body + w2 + "```", parse).Ok? <==> parse(body).Some?
  {
    CleanFenced(w1, body, w2);
    WholeSpan(body);
  }

  /** A plain ```` ``` ```` fence around an object or array is removed
      the same way ... */
  lemma CleanPlainFenced(w1: string, body: string, w2: string)
    requires AllWhitespace(w1) && AllWhitespace(w2)
    requires |body| >= 1 && (body[0] == '{' || body[0] == '[') && !IsWhitespace(body[|body| - 1])
    ensures CleanResponse("```" + w1 + body + w2 + "```") == body
  {
    var s := "```" + w1 + body + w2 + "```";
    var a := body + w2 + "```";
    BracketNotWhitespace(body[0]);
    PlainFenceNotJson(w1, body, w2);
    PlainFenceStripped(w1, body, w2);
    ClosingFence(body, w2);
    PlainFencedAnswerTrimmed(w1, body, w2);
    CleanPlainSteps(s, a, body);
  }

  lemma BracketNotWhitespace(c: char)
    requires c == '{' || c == '['
    ensures !IsWhitespace(c)
  {
  }

  lemma CleanPlainSteps(s: string, a: string, body: string)
    requires Trim(s) == s && StripJsonFence(s) == s && StripFence(s) == a && StripTrailingFence(a) == body
    ensures CleanResponse(s) == body
  {
  }

  lemma PlainFencedAnswerTrimmed(w1: string, body: string, w2: string)
    ensures var s := "```" + w1 + body + w2 + "```"; Trim(s) == s
  {
    var s := "```" + w1 + body + w2 + "```";
    assert |s| >= 1 && s[0] == '`' && s[|s| - 1] == '`';
    TrimmedEnds(s);
  }

  /** After a plain fence comes whitespace or the opening brace, so the
      ```` ```json ```` pattern does not match. */
  lemma PlainFenceNotJson(w1: string, body: string, w2: string)
    requires AllWhitespace(w1) && |body| >= 1 && (body[0] == '{' || body[0] == '[')
    ensures var s := "```" + w1 + body + w2 + "```"; StripJsonFence(s) == s
  {
    var s := "```" + w1 + body + w2 + "```";
    var c := if w1 == [] then body[0] else w1[0];
    assert s[3] == c;
    assert LowerAscii(c) != 'j';
    if |s| >= 7 {
      assert s[3..7][0] == c;
    }
  }

  lemma PlainFenceStripped(w1: string, body: string, w2: string)
    requires AllWhitespace(w1) && |body| >= 1 && !IsWhitespace(body[0])
    ensures StripFence("```" + w1 + body + w2 + "```") == body + w2 + "```"
  {
    var a := body + w2 + "```";
    assert "```" + w1 + body + w2 + "```" == "```" + w1 + a;
    assert a[0] == body[0];
    PlainOpeningFence(w1, a);
  }

  lemma PlainOpeningFence(w: string, rest: string)
    requires AllWhitespace(w) && (rest == [] || !IsWhitespace(rest[0]))
    ensures StripFence("```" + w + rest) == rest
  {
    var s := "```" + w + rest;
    assert s[..3] == Fence && s[3..] == w + rest;
    TrimStartPast(w, rest);
  }

  /** ... and its body is what gets parsed. */
  lemma PlainFencedJsonRecovered(w1: string, body: string, w2: string, parse: string -> Option<Value>)
    requires AllWhitespace(w1) && AllWhitespace(w2)
    requires |body| >= 2 && (body[0] == '{' || body[0] == '[') && body[|body| - 1] == Closer(body[0])
    ensures ParseSource("```" + w1 + body + w2 + "```") == body
    ensures ParseResponse("```" + w1 + body + w2 + "```", parse).Ok? <==> parse(body).Some?
  {
    CleanPlainFenced(w1, body, w2);
    WholeSpan(body);
  }

  /** Prose around the JSON is skipped: with no opening brace or bracket
      before the body and no closer of the body's kind after it, the span
      is exactly the body. */
  lemma SpanSkipsProse(pre: string, body: string, post: string)
    requires NoneIn(pre, {'{', '['})
    requires |body| >= 2 && (body[0] == '{' || body[0] == '[') && body[|body| - 1] == Closer(body[0])
    requires Closer(body[0]) !in post
    ensures FindSpan(pre + body + post) == Some(body)
  {
    var s := pre + body + post;
    var b := |pre|;
    forall q | 0 <= q < b ensures !OpensSpan(s, q) {
      assert s[q] == pre[q];
    }
    assert s[b] == body[0];
    assert s[b + 1..] == body[1..] + post;
    assert s[b + 1..][|body| - 2] == body[|body| - 1];
    assert OpensSpan(s, b);
    assert SpanStart(s, 0) == Some(b) by {
      SpanStartFirst(s, 0, b);
    }
    var rest := s[b + 1..];
    var c := Closer(s[b]);
    var k := LastIndex(rest, c).value;
    assert rest[|body| - 2] == c;
    assert forall j :: |body| - 1 <= j < |rest| ==> rest[j] == post[j - (|body| - 1)];
    assert k == |body| - 2;
    assert s[b..b + |body|] == body;
  }

  lemma {:induction false} SpanStartFirst(s: string, from: nat, b: nat)
    requires from <= b < |s| && OpensSpan(s, b)
    requires forall q :: from <= q < b ==> !OpensSpan(s, q)
    ensures SpanStart(s, from) == Some(b)
    decreases b - from
  {
    if from < b {
      SpanStartFirst(s, from + 1, b);
    }
  }
}
