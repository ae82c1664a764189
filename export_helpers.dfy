/** The export of src/composables/useExport.js: the file name built from
    the article title, the pieces of the HTML page that depend on the
    article (content with line breaks, duration text, metadata defaults),
    and the `isExporting`/`error` flags around an export. The fixed HTML
    text, the locale date format, HTML escaping and the browser download
    are not part of this model; the current time is a parameter. */
module ExportHelpers {
  import opened Wrappers
  import opened Strings
  import opened JsValues

  // ---------------------------------------------------------------------------
  // File name

  /** The class `[<>:"/\\|?*\x00-\x1F]`. */
  predicate Forbidden(c: char) {
    c == '<' || c == '>' || c == ':' || c == '"' || c == '/' || c == '\\' || c == '|' || c == '?' || c == '*'
    || c < '\U{0020}'
  }

  predicate NoForbidden(s: string) {
    forall i :: 0 <= i < |s| ==> !Forbidden(s[i])
  }

  predicate NoWhitespace(s: string) {
    forall i :: 0 <= i < |s| ==> !IsWhitespace(s[i])
  }

  /** `.replace(/[<>:"/\\|?*\x00-\x1F]/g, '')`. */
  function StripForbidden(s: string): (r: string)
    ensures |r| <= |s|
  {
    if s == [] then []
    else (if Forbidden(s[0]) then [] else [s[0]]) + StripForbidden(s[1..])
  }

  /** Nothing forbidden is left. */
  lemma {:induction false} StripForbiddenClean(s: string)
    ensures NoForbidden(StripForbidden(s))
  {
    if s != [] {
      StripForbiddenClean(s[1..]);
      NoForbiddenJoin(if Forbidden(s[0]) then [] else [s[0]], StripForbidden(s[1..]));
    }
  }

  /** A title with nothing forbidden in it is left as it is. */
  lemma {:induction false} StripForbiddenKeepsClean(s: string)
    requires NoForbidden(s)
    ensures StripForbidden(s) == s
  {
    if s != [] {
      NoForbiddenSuffix(s, 1);
      StripForbiddenKeepsClean(s[1..]);
      assert !Forbidden(s[0]);
      assert s == [s[0]] + s[1..];
    }
  }

  lemma {:induction false} StripAppend(a: string, b: string)
    ensures StripForbidden(a + b) == StripForbidden(a) + StripForbidden(b)
    decreases |a|
  {
    if a == [] {
      assert a + b == b;
    } else {
      assert (a + b)[1..] == a[1..] + b;
      StripAppend(a[1..], b);
    }
  }

  /** What one character of a title becomes under `.replace(/\s+/g, '-')`,
      given whether it follows whitespace: the first whitespace character
      of a run gives the `-`, the others nothing, any other character
      itself. */
  function Head(c: char, inRun: bool): string {
    if IsWhitespace(c) then (if inRun then "" else "-") else [c]
  }

  /** The replacement scanned left to right, `inRun` telling whether the
      text before `s` ended in whitespace. */
  function CollapseFrom(s: string, inRun: bool): string {
    if s == [] then [] else Head(s[0], inRun) + CollapseFrom(s[1..], IsWhitespace(s[0]))
  }

  lemma {:induction false} CollapseFromClean(s: string, inRun: bool)
    ensures NoWhitespace(CollapseFrom(s, inRun))
  {
    if s != [] {
      CollapseFromClean(s[1..], IsWhitespace(s[0]));
      NoWhitespaceJoin(Head(s[0], inRun), CollapseFrom(s[1..], IsWhitespace(s[0])));
    }
  }

  /** `.replace(/\s+/g, '-')`: every run of whitespace becomes one `-`. */
  function CollapseWhitespace(s: string): (r: string)
    ensures NoWhitespace(r)
  {
    CollapseFromClean(s, false);
    CollapseFrom(s, false)
  }

  lemma NoWhitespaceJoin(a: string, b: string)
    requires NoWhitespace(a) && NoWhitespace(b)
    ensures NoWhitespace(a + b)
  {
    assert forall i :: |a| <= i < |a + b| ==> (a + b)[i] == b[i - |a|];
  }

  lemma NoForbiddenSuffix(s: string, k: nat)
    requires NoForbidden(s) && k <= |s|
    ensures NoForbidden(s[k..])
  {
    assert forall i :: 0 <= i < |s| - k ==> s[k..][i] == s[k + i];
  }

  lemma NoForbiddenJoin(a: string, b: string)
    requires NoForbidden(a) && NoForbidden(b)
    ensures NoForbidden(a + b)
  {
    assert forall i :: |a| <= i < |a + b| ==> (a + b)[i] == b[i - |a|];
  }

  /** The `-` of a run is not forbidden, so collapsing brings in nothing
      forbidden. */
  lemma CollapseAllowed(s: string)
    requires NoForbidden(s)
    ensures NoForbidden(CollapseWhitespace(s))
  {
    CollapseFromAllowed(s, false);
  }

  lemma {:induction false} CollapseFromAllowed(s: string, inRun: bool)
    requires NoForbidden(s)
    ensures NoForbidden(CollapseFrom(s, inRun))
    decreases |s|
  {
    if s != [] {
      NoForbiddenSuffix(s, 1);
      CollapseFromAllowed(s[1..], IsWhitespace(s[0]));
      assert NoForbidden(Head(s[0], inRun));
      NoForbiddenJoin(Head(s[0], inRun), CollapseFrom(s[1..], IsWhitespace(s[0])));
    }
  }

  /** A title without whitespace is left as it is. */
  lemma CollapseNoWhitespace(s: string)
    requires NoWhitespace(s)
    ensures CollapseWhitespace(s) == s
  {
    CollapseFromNoWhitespace(s, false);
  }

  lemma {:induction false} CollapseFromNoWhitespace(s: string, inRun: bool)
    requires NoWhitespace(s)
    ensures CollapseFrom(s, inRun) == s
    decreases |s|
  {
    if s != [] {
      assert !IsWhitespace(s[0]);
      CollapseFromNoWhitespace(s[1..], false);
    }
  }

  /** Text that does not start with whitespace is collapsed the same way
      whatever came before it. */
  lemma CollapseFromFresh(b: string)
    requires b == [] || !IsWhitespace(b[0])
    ensures CollapseFrom(b, true) == CollapseFrom(b, false)
  {
  }

  /** Whitespace after whitespace adds nothing. */
  lemma {:induction false} RunAbsorbed(v: string, b: string)
    requires AllWhitespace(v) && (b == [] || !IsWhitespace(b[0]))
    ensures CollapseFrom(v + b, true) == CollapseFrom(b, false)
    decreases |v|
  {
    if v == [] {
      assert v + b == b;
      CollapseFromFresh(b);
    } else {
      assert (v + b)[0] == v[0] && (v + b)[1..] == v[1..] + b;
      RunAbsorbed(v[1..], b);
    }
  }

  /** A run at the front becomes one `-`. */
  lemma RunThenRest(w: string, b: string)
    requires w != [] && AllWhitespace(w)
    requires b == [] || !IsWhitespace(b[0])
    ensures CollapseFrom(w + b, false) == "-" + CollapseFrom(b, false)
  {
    assert (w + b)[0] == w[0] && (w + b)[1..] == w[1..] + b;
    RunAbsorbed(w[1..], b);
  }

  /** A whole run of whitespace between two other characters turns into
      exactly one `-`. */
  lemma CollapseRun(a: string, w: string, b: string)
    requires a == [] || !IsWhitespace(a[|a| - 1])
    requires w != [] && AllWhitespace(w)
    requires b == [] || !IsWhitespace(b[0])
    ensures CollapseWhitespace(a + w + b) == CollapseWhitespace(a) + "-" + CollapseWhitespace(b)
  {
    if a == [] {
      assert a + w + b == w + b;
      RunThenRest(w, b);
    } else {
      CollapseRunFrom(a, w, b, false);
    }
  }

  lemma {:induction false} CollapseRunFrom(a: string, w: string, b: string, inRun: bool)
    requires a != [] && !IsWhitespace(a[|a| - 1])
    requires w != [] && AllWhitespace(w)
    requires b == [] || !IsWhitespace(b[0])
    ensures CollapseFrom(a + w + b, inRun) == CollapseFrom(a, inRun) + "-" + CollapseFrom(b, false)
    decreases |a|
  {
    var s := a + w + b;
    var next := IsWhitespace(a[0]);
    assert s[0] == a[0] && s[1..] == a[1..] + w + b;
    if |a| == 1 {
      assert a[1..] + w + b == w + b;
      RunThenRest(w, b);
    } else {
      assert a[1..][|a| - 2] == a[|a| - 1];
      CollapseRunFrom(a[1..], w, b, next);
      assert CollapseFrom(a, inRun) == Head(a[0], inRun) + CollapseFrom(a[1..], next);
      Regroup(Head(a[0], inRun), CollapseFrom(a[1..], next), CollapseFrom(b, false));
    }
  }

  lemma Regroup(p: string, x: string, y: string)
    ensures p + (x + "-" + y) == (p + x) + "-" + y
  {
  }

  const MaxTitleLength: nat := 50

  /** The cleaned title of `generateFilename`: forbidden characters
      removed, whitespace runs turned into `-`, cut to 50 characters. */
  function CleanTitle(title: string): (r: string)
    ensures NoForbidden(r) && NoWhitespace(r)
    ensures |r| <= MaxTitleLength
  {
    StripForbiddenClean(title);
    CollapseAndCut(StripForbidden(title))
  }

  /** The steps of `CleanTitle` after the forbidden characters are gone. */
  function CollapseAndCut(stripped: string): (r: string)
    ensures NoWhitespace(r) && |r| <= MaxTitleLength
    ensures NoForbidden(stripped) ==> NoForbidden(r)
  {
    var collapsed := CollapseWhitespace(stripped);
    assert NoForbidden(stripped) ==> NoForbidden(collapsed) by {
      if NoForbidden(stripped) {
        CollapseAllowed(stripped);
      }
    }
    var r := Prefix(collapsed, MaxTitleLength);
    assert forall i :: 0 <= i < |r| ==> r[i] == collapsed[i];
    r
  }

  /** Cleaning a cleaned title changes nothing. */
  lemma CleanTitleIdempotent(title: string)
    ensures CleanTitle(CleanTitle(title)) == CleanTitle(title)
  {
    var c := CleanTitle(title);
    StripForbiddenKeepsClean(c);
    CollapseNoWhitespace(c);
  }

  /** A tab, a newline or any other control character is dropped before
      whitespace is collapsed, so it leaves no `-` behind. */
  lemma ControlCharacterVanishes(a: string, c: char, b: string)
    requires c < '\U{0020}'
    ensures CleanTitle(a + [c] + b) == CleanTitle(a + b)
  {
    ControlCharacterStripped(a, c, b);
  }

  lemma ControlCharacterStripped(a: string, c: char, b: string)
    requires c < '\U{0020}'
    ensures StripForbidden(a + [c] + b) == StripForbidden(a + b)
  {
    StripAppend(a + [c], b);
    StripAppend(a, [c]);
    StripAppend(a, b);
    assert StripForbidden([c]) == [];
  }

  /** `` `${cleanTitle}-${timestamp}.html` `` with `timestamp` the first ten
      characters of the ISO time `nowIso`. */
  function Filename(title: string, nowIso: string): (r: string)
    ensures |r| == |CleanTitle(title)| + 6 + |Prefix(nowIso, 10)|
    ensures r[..|CleanTitle(title)|] == CleanTitle(title) && r[|CleanTitle(title)|] == '-'
    ensures r[|CleanTitle(title)| + 1..|r| - 5] == Prefix(nowIso, 10)
    ensures r[|r| - 5..] == ".html"
  {
    CleanTitle(title) + "-" + Prefix(nowIso, 10) + ".html"
  }

  // ---------------------------------------------------------------------------
  // Page text

  /** `content.replace(/\n/g, '<br>')`. */
  function FormatContent(content: string): (r: string)
    ensures forall i :: 0 <= i < |r| ==> r[i] != '\n'
    ensures |r| == |content| + 3 * CountIn(content, {'\n'})
  {
    if content == [] then []
    else (if content[0] == '\n' then "<br>" else [content[0]]) + FormatContent(content[1..])
  }

  /** The replacement works piece by piece. */
  lemma {:induction false} FormatContentAppend(a: string, b: string)
    ensures FormatContent(a + b) == FormatContent(a) + FormatContent(b)
    decreases |a|
  {
    if a == [] {
      assert a + b == b;
    } else {
      assert (a + b)[1..] == a[1..] + b;
      FormatContentAppend(a[1..], b);
    }
  }

  /** Each character is handled on its own: a newline becomes `<br>`,
      anything else is kept. */
  lemma FormatContentCons(c: char, rest: string)
    ensures FormatContent([c] + rest) == (if c == '\n' then "<br>" else [c]) + FormatContent(rest)
  {
    assert ([c] + rest)[0] == c && ([c] + rest)[1..] == rest;
  }

  /** Text without a newline is left as it is. */
  lemma {:induction false} FormatContentPlain(content: string)
    requires forall i :: 0 <= i < |content| ==> content[i] != '\n'
    ensures FormatContent(content) == content
    decreases |content|
  {
    if content != [] {
      FormatContentPlain(content[1..]);
    }
  }

  /** `Math.round(ms / 1000)`: the nearest whole second, halves upward. */
  function RoundedSeconds(ms: int): (r: int)
    ensures r * 1000 - 500 <= ms < r * 1000 + 500
  {
    (ms + 500) / 1000
  }

  /** The duration text of the page: the rounded seconds and `秒` for a
      positive duration, `未知` otherwise. */
  function DurationText(duration: Value): (r: string)
    ensures !GreaterThanZero(duration) ==> r == "未知"
    ensures duration.Num? && duration.n > 0 ==>
              r == IntToString(RoundedSeconds(duration.n)) + "秒"
  {
    if GreaterThanZero(duration) then IntToString(RoundedSeconds(ToNumber(duration).value)) + "秒" else "未知"
  }

  /** A duration stored as the text of a positive number of milliseconds
      reads as that number. */
  lemma DurationOfNumericText(ms: int)
    requires ms > 0
    ensures DurationText(Str(IntToString(ms))) == IntToString(RoundedSeconds(ms)) + "秒"
  {
    StringToNumberOfIntToString(ms);
  }

  const DefaultModelUsed: string := "claude-sonnet-4.5"

  /** The parts of the page that come from the article. The HTML around
      them is fixed text. */
  datatype Page = Page(title: string, body: string, generatedAt: Value, durationText: string, modelUsed: Value)

  datatype Download = Download(filename: string, page: Page)

  /** The page for a title, a content and a metadata object, with the
      defaults of `exportToHTML` for what the metadata lacks. */
  function PageOf(title: string, content: string, metadata: Value, nowIso: string): Page {
    Page(title, FormatContent(content),
         Or(Get(metadata, "generatedAt"), Str(nowIso)),
         DurationText(Or(Get(metadata, "duration"), Num(0))),
         Or(Get(metadata, "modelUsed"), Str(DefaultModelUsed)))
  }

  /** Metadata with none of its fields set gives the current time, an
      unknown duration and the default model. */
  lemma EmptyMetadataDefaults(title: string, content: string, nowIso: string)
    ensures var page := PageOf(title, content, Obj(map[]), nowIso);
            && page.generatedAt == Str(nowIso)
            && page.durationText == "未知"
            && page.modelUsed == Str(DefaultModelUsed)
  {
  }

  /** A zero or missing duration reads as unknown. */
  lemma ZeroDurationUnknown(metadata: Value)
    requires Get(metadata, "duration") == Num(0) || Nullish(Get(metadata, "duration"))
    ensures DurationText(Or(Get(metadata, "duration"), Num(0))) == "未知"
  {
  }

  /** The message V8 gives for `const { title } = data` when `data` is
      null or undefined. */
  function DestructureMessage(data: Value): string
    requires Nullish(data)
  {
    "Cannot destructure property 'title' of 'data' as it is " + (if data.Null? then "null" else "undefined") + "."
  }

  /** `s.replace(...)` on a value that may not be a string. */
  function ReplaceTarget(v: Value, name: string): (r: Result<string>)
    ensures r.Ok? <==> v.Str?
    ensures r.Ok? ==> r.value == v.s
  {
    if Nullish(v) then Err(TypeErrorMessage(v, "replace"))
    else if v.Str? then Ok(v.s)
    else Err(name + ".replace is not a function")
  }

  /** What `exportToHTML(data)` produces, in the order the source
      evaluates it: destructuring `data`, reading the metadata, formatting
      the content, then the file name from the title. */
  function Export(data: Value, nowIso: string): (r: Result<Download>)
    ensures r.Err? <==> || Nullish(data) || Nullish(Get(data, "metadata"))
                        || !Get(data, "content").Str? || !Get(data, "title").Str?
    ensures r.Ok? ==> && r.value.filename == Filename(Get(data, "title").s, nowIso)
                      && r.value.page == PageOf(Get(data, "title").s, Get(data, "content").s,
                                                Get(data, "metadata"), nowIso)
    ensures Nullish(data) ==> r == Err(DestructureMessage(data))
  {
    if Nullish(data) then Err(DestructureMessage(data))
    else
      var title, content, metadata := Get(data, "title"), Get(data, "content"), Get(data, "metadata");
      if Nullish(metadata) then Err(TypeErrorMessage(metadata, "generatedAt"))
      else
        match ReplaceTarget(content, "content")
        case Err(m) => Err(m)
        case Ok(text) =>
          match ReplaceTarget(title, "title")
          case Err(m) => Err(m)
          case Ok(name) => Ok(Download(Filename(name, nowIso), PageOf(name, text, metadata, nowIso)))
  }

  /** The page body of an export holds no newline. */
  lemma ExportedBodyHasNoNewline(data: Value, nowIso: string)
    requires Export(data, nowIso).Ok?
    ensures var body := Export(data, nowIso).value.page.body;
            forall i :: 0 <= i < |body| ==> body[i] != '\n'
  {
  }

  /** The state of `useExport`: the busy flag, the last error message, and
      the files handed to the browser so far. */
  class Exporter {
    var isExporting: bool
    var error: Option<string>
    var downloads: seq<Download>

    constructor ()
      ensures !isExporting && error == None && downloads == []
    {
      isExporting := false;
      error := None;
      downloads := [];
    }

    /** `exportToHTML(data)` at time `nowIso`: true and one more download
        on success; false with the exception's message in `error` on
        failure; not busy afterwards in either case. */
    method ExportToHTML(data: Value, nowIso: string) returns (ok: bool)
      modifies this
      ensures ok <==> Export(data, nowIso).Ok?
      ensures ok ==> error == None && downloads == old(downloads) + [Export(data, nowIso).value]
      ensures !ok ==> error == Some(Export(data, nowIso).message) && downloads == old(downloads)
      ensures !isExporting
    {
      isExporting := true;
      error := None;
      var result := Export(data, nowIso);
      if result.Ok? {
        downloads := downloads + [result.value];
        ok := true;
      } else {
        error := Some(result.message);
        ok := false;
      }
      isExporting := false;
    }
  }
}
