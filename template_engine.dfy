/** `replaceTemplateVariables`, `getValueByPath` and `resolveVariables`
    of src/composables/useAI.js: `{{key}}` substitution against a variable
    bag, and dotted-path lookup that builds the bag from nested state. */
module TemplateEngine {
  import opened Wrappers
  import opened Strings
  import opened JsValues

  // ---------------------------------------------------------------------------
  // Placeholders: the matches of the regular expression /\{\{([^}]+)\}\}/g

  /** A placeholder starts at index 0 of `s` and ends just before `e`:
      `{{`, then one or more characters other than `}`, then `}}`. */
  predicate PlaceholderAt(s: string, e: nat) {
    5 <= e <= |s| && s[..2] == "{{" && s[e - 2..e] == "}}" && NoneIn(s[2..e - 2], {'}'})
  }

  /** The end index of the placeholder that starts at index 0 of `s`, if
      one does. The greedy `[^}]+` stops at the first `}`, and that `}`
      must be followed by a second one. */
  function PlaceholderEnd(s: string): (r: Option<nat>)
    ensures r.Some? ==> 5 <= r.value <= |s|
  {
    if |s| >= 2 && s[0] == '{' && s[1] == '{' then
      var j := 2 + FirstIn(s[2..], {'}'});
      if j > 2 && j + 1 < |s| && s[j + 1] == '}' then Some(j + 2) else None
    else None
  }

  /** What `PlaceholderEnd` finds is a placeholder. */
  lemma PlaceholderEndSound(s: string)
    requires PlaceholderEnd(s).Some?
    ensures PlaceholderAt(s, PlaceholderEnd(s).value)
  {
    var j := 2 + FirstIn(s[2..], {'}'});
    assert s[2..j] == s[2..][..j - 2];
  }

  /** There is only one way for a placeholder to start at index 0, and
      `PlaceholderEnd` finds it: no placeholder at the front is missed. */
  lemma PlaceholderEndComplete(s: string, e: nat)
    requires PlaceholderAt(s, e)
    ensures PlaceholderEnd(s) == Some(e)
  {
    var k := FirstIn(s[2..], {'}'});
    assert s[2..][e - 4] == s[e - 2] == '}';
    assert k == e - 4;
    assert s[0] == s[..2][0] && s[1] == s[..2][1];
    assert s[e - 1] == s[e - 2..e][1];
  }

  /** A placeholder at the front spells `{{`, its key, `}}`. */
  lemma PlaceholderSpelled(s: string, e: nat)
    requires PlaceholderAt(s, e)
    ensures s == "{{" + s[2..e - 2] + "}}" + s[e..]
  {
    assert s == s[..2] + s[2..e - 2] + s[e - 2..e] + s[e..];
  }

  /** One piece of a template: a character outside every placeholder, or a
      placeholder with its key as written between the braces. */
  datatype Piece = Text(c: char) | Placeholder(key: string)

  predicate WellFormedKey(key: string) {
    |key| >= 1 && NoneIn(key, {'}'})
  }

  /** The template cut into its literal characters and its placeholders,
      scanning left to right and resuming after each match, as a global
      regular-expression replace does. */
  function Tokenize(s: string): seq<Piece>
    decreases |s|
  {
    if s == [] then []
    else match PlaceholderEnd(s)
      case Some(e) => [Placeholder(s[2..e - 2])] + Tokenize(s[e..])
      case None => [Text(s[0])] + Tokenize(s[1..])
  }

  /** Every key the tokenizer cuts out is one the regular expression
      accepts: non-empty and free of `}`. */
  lemma {:induction false} TokenizeKeysWellFormed(s: string)
    ensures var r := Tokenize(s);
            forall i :: 0 <= i < |r| && r[i].Placeholder? ==> WellFormedKey(r[i].key)
    decreases |s|
  {
    if s != [] {
      match PlaceholderEnd(s)
      case Some(e) =>
        PlaceholderEndSound(s);
        TokenizeKeysWellFormed(s[e..]);
        var r := Tokenize(s);
        assert r[1..] == Tokenize(s[e..]);
      case None =>
        TokenizeKeysWellFormed(s[1..]);
        var r := Tokenize(s);
        assert r[1..] == Tokenize(s[1..]);
    }
  }

  /** The template text a sequence of pieces was cut from. */
  function Unparse(pieces: seq<Piece>): string {
    if pieces == [] then []
    else
      (match pieces[0]
       case Text(c) => [c]
       case Placeholder(k) => "{{" + k + "}}") + Unparse(pieces[1..])
  }

  /** Tokenizing loses nothing: the pieces spell out the template. */
  lemma {:induction false} TokenizeUnparse(s: string)
    ensures Unparse(Tokenize(s)) == s
    decreases |s|
  {
    if s != [] {
      match PlaceholderEnd(s)
      case Some(e) =>
        TokenizeUnparse(s[e..]);
        PlaceholderEndSound(s);
        PlaceholderSpelled(s, e);
        UnparseCons(Placeholder(s[2..e - 2]), Tokenize(s[e..]));
      case None =>
        TokenizeUnparse(s[1..]);
        UnparseCons(Text(s[0]), Tokenize(s[1..]));
        assert s == [s[0]] + s[1..];
    }
  }

  lemma UnparseCons(p: Piece, pieces: seq<Piece>)
    ensures Unparse([p] + pieces)
         == (match p case Text(c) => [c] case Placeholder(k) => "{{" + k + "}}") + Unparse(pieces)
  {
    assert ([p] + pieces)[0] == p;
    assert ([p] + pieces)[1..] == pieces;
  }

  // ---------------------------------------------------------------------------
  // Substitution

  /** `s.replace(/\{\{([^}]+)\}\}/g, (match, key) => replacer(key))`:
      every placeholder is replaced by what the callback returns for its
      key, every other character is kept, and the returned text is not
      scanned again. */
  function RegexReplace(s: string, replacer: string -> string): string {
    Substitute(Tokenize(s), replacer)
  }

  function Substitute(pieces: seq<Piece>, replacer: string -> string): string {
    if pieces == [] then []
    else
      (match pieces[0]
       case Text(c) => [c]
       case Placeholder(k) => replacer(k)) + Substitute(pieces[1..], replacer)
  }

  lemma {:induction false} SubstituteAppend(a: seq<Piece>, b: seq<Piece>, replacer: string -> string)
    ensures Substitute(a + b, replacer) == Substitute(a, replacer) + Substitute(b, replacer)
  {
    if a == [] {
      assert a + b == b;
    } else {
      assert (a + b)[0] == a[0] && (a + b)[1..] == a[1..] + b;
      SubstituteAppend(a[1..], b, replacer);
    }
  }

  /** The pieces of literal text. */
  function Texts(s: string): (r: seq<Piece>)
    ensures |r| == |s| && forall i :: 0 <= i < |s| ==> r[i] == Text(s[i])
  {
    if s == [] then [] else [Text(s[0])] + Texts(s[1..])
  }

  lemma {:induction false} SubstituteTexts(s: string, replacer: string -> string)
    ensures Substitute(Texts(s), replacer) == s
  {
    if s != [] {
      var t := Texts(s);
      assert t[0] == Text(s[0]) && t[1..] == Texts(s[1..]);
      SubstituteTexts(s[1..], replacer);
    }
  }

  /** No match of the pattern starts in `s` before index `n`. */
  predicate NoMatchBefore(s: string, n: nat) {
    n <= |s| && forall i :: 0 <= i < n ==> PlaceholderEnd(s[i..]).None?
  }

  /** No `{{` occurs in `s`. */
  predicate NoDoubleBrace(s: string) {
    forall i :: 0 <= i < |s| - 1 ==> !(s[i] == '{' && s[i + 1] == '{')
  }

  /** Text that cannot start a match whatever follows it: no `{{` in it,
      and it does not end in `{`. */
  predicate LiteralText(pre: string) {
    NoDoubleBrace(pre) && (pre == [] || pre[|pre| - 1] != '{')
  }

  lemma LiteralTextNoMatch(pre: string, rest: string)
    requires LiteralText(pre)
    ensures NoMatchBefore(pre + rest, |pre|)
  {
    var s := pre + rest;
    forall i | 0 <= i < |pre|
      ensures PlaceholderEnd(s[i..]).None?
    {
      var t := s[i..];
      assert t[0] == pre[i];
      assert i + 1 < |pre| ==> t[1] == pre[i + 1];
    }
  }

  lemma NoDoubleBraceNoMatch(s: string)
    requires NoDoubleBrace(s)
    ensures NoMatchBefore(s, |s|)
  {
    forall i | 0 <= i < |s|
      ensures PlaceholderEnd(s[i..]).None?
    {
      var t := s[i..];
      assert |t| >= 2 ==> t[0] == s[i] && t[1] == s[i + 1];
    }
  }

  /** Where no match starts, the tokenizer yields one text piece per
      character. */
  lemma {:induction false} TokenizeLiteralPrefix(pre: string, rest: string)
    requires NoMatchBefore(pre + rest, |pre|)
    ensures Tokenize(pre + rest) == Texts(pre) + Tokenize(rest)
    decreases |pre|
  {
    if pre == [] {
      assert pre + rest == rest;
    } else {
      var s := pre + rest;
      LiteralHead(pre, rest);
      TokenizeTextHead(s);
      TokenizeLiteralPrefix(pre[1..], rest);
      assert Texts(pre) == [Text(pre[0])] + Texts(pre[1..]);
      Regroup([Text(pre[0])], Texts(pre[1..]), Tokenize(rest));
    }
  }

  /** Splitting off the first character of a literal prefix. */
  lemma LiteralHead(pre: string, rest: string)
    requires pre != [] && NoMatchBefore(pre + rest, |pre|)
    ensures var s := pre + rest;
            && s[0] == pre[0] && s[1..] == pre[1..] + rest && PlaceholderEnd(s).None?
            && NoMatchBefore(pre[1..] + rest, |pre| - 1)
  {
    var s := pre + rest;
    assert s[1..] == pre[1..] + rest;
    assert s[0..] == s;
    forall i | 0 <= i < |pre| - 1
      ensures PlaceholderEnd((pre[1..] + rest)[i..]).None?
    {
      assert (pre[1..] + rest)[i..] == s[i + 1..];
    }
  }

  /** Where no match starts, the tokenizer takes one character of text. */
  lemma TokenizeTextHead(s: string)
    requires s != [] && PlaceholderEnd(s).None?
    ensures Tokenize(s) == [Text(s[0])] + Tokenize(s[1..])
  {
  }

  /** Text in which no match starts passes through unchanged, whatever
      follows it. */
  lemma ReplaceLiteralPrefix(pre: string, rest: string, replacer: string -> string)
    requires NoMatchBefore(pre + rest, |pre|)
    ensures RegexReplace(pre + rest, replacer) == pre + RegexReplace(rest, replacer)
  {
    TokenizeLiteralPrefix(pre, rest);
    SubstituteAppend(Texts(pre), Tokenize(rest), replacer);
    SubstituteTexts(pre, replacer);
  }

  /** A placeholder at the front is replaced by what the callback returns
      for its key, and the rest is processed on its own. */
  lemma ReplacePlaceholderPrefix(key: string, rest: string, replacer: string -> string)
    requires WellFormedKey(key)
    ensures RegexReplace("{{" + key + "}}" + rest, replacer) == replacer(key) + RegexReplace(rest, replacer)
  {
    var s := "{{" + key + "}}" + rest;
    var e := |key| + 4;
    assert s[..2] == "{{";
    assert s[2..e - 2] == key;
    assert s[e - 2..e] == "}}";
    assert s[e..] == rest;
    PlaceholderEndComplete(s, e);
    var pieces := Tokenize(s);
    assert pieces == [Placeholder(key)] + Tokenize(rest);
    assert pieces[0] == Placeholder(key) && pieces[1..] == Tokenize(rest);
  }

  /** A placeholder after literal text: the text is kept and the
      placeholder replaced. */
  lemma ReplaceMiddle(pre: string, key: string, post: string, replacer: string -> string)
    requires LiteralText(pre) && WellFormedKey(key)
    ensures RegexReplace(pre + "{{" + key + "}}" + post, replacer)
         == pre + replacer(key) + RegexReplace(post, replacer)
  {
    var hole := "{{" + key + "}}" + post;
    var tail := RegexReplace(post, replacer);
    assert RegexReplace(pre + hole, replacer) == pre + RegexReplace(hole, replacer) by {
      LiteralTextNoMatch(pre, hole);
      ReplaceLiteralPrefix(pre, hole, replacer);
    }
    assert RegexReplace(hole, replacer) == replacer(key) + tail by {
      ReplacePlaceholderPrefix(key, post, replacer);
    }
    RegroupFront(pre, "{{", key, "}}", post);
    Regroup(pre, replacer(key), tail);
  }

  /** A text in which no match starts is returned unchanged. */
  lemma ReplaceWithoutPlaceholders(s: string, replacer: string -> string)
    requires NoMatchBefore(s, |s|)
    ensures RegexReplace(s, replacer) == s
  {
    assert s + [] == s;
    ReplaceLiteralPrefix(s, [], replacer);
  }

  /** The visible marker put in place of a placeholder whose value is null
      or undefined. */
  function MissingMarker(key: string): string {
    "[缺失: " + key + "]"
  }

  /** The text one placeholder becomes: the marker for a missing, null or
      undefined value, `JSON.stringify(value, null, 2)` (here the
      uninterpreted `prettyJson`) for an object or array, `String(value)`
      for anything else. The key used is the trimmed key. */
  function RenderKey(key: string, variables: map<string, Value>, prettyJson: Value -> string): (r: string)
    ensures Trim(key) !in variables ==> r == MissingMarker(Trim(key))
    ensures Trim(key) in variables && Nullish(variables[Trim(key)]) ==> r == MissingMarker(Trim(key))
    ensures Trim(key) in variables && IsObjectLike(variables[Trim(key)]) ==> r == prettyJson(variables[Trim(key)])
    ensures Trim(key) in variables && variables[Trim(key)].Str? ==> r == variables[Trim(key)].s
    ensures Trim(key) in variables && !Nullish(variables[Trim(key)]) && !IsObjectLike(variables[Trim(key)])
            ==> r == ToDisplayString(variables[Trim(key)])
    ensures Trim(key) in variables && variables[Trim(key)].Num? ==> r == IntToString(variables[Trim(key)].n)
  {
    var k := Trim(key);
    var v := if k in variables then variables[k] else Undefined;
    if Nullish(v) then MissingMarker(k)
    else if IsObjectLike(v) then prettyJson(v)
    else ToDisplayString(v)
  }

  /** `replaceTemplateVariables(template, variables)`: the global replace
      with `RenderKey` as its callback. */
  function ReplaceTemplateVariables(template: string, variables: map<string, Value>, prettyJson: Value -> string): string {
    RegexReplace(template, key => RenderKey(key, variables, prettyJson))
  }

  /** A template in which no `{{` occurs is returned unchanged. */
  lemma TemplateWithoutPlaceholders(template: string, variables: map<string, Value>, prettyJson: Value -> string)
    requires NoDoubleBrace(template)
    ensures ReplaceTemplateVariables(template, variables, prettyJson) == template
  {
    NoDoubleBraceNoMatch(template);
    ReplaceWithoutPlaceholders(template, key => RenderKey(key, variables, prettyJson));
  }

  /** Literal text before a placeholder is kept, the placeholder becomes
      the text of its trimmed key, and the rest is substituted on its own. */
  lemma ReplaceAfterLiteral(pre: string, key: string, post: string, variables: map<string, Value>, prettyJson: Value -> string)
    requires LiteralText(pre) && WellFormedKey(key)
    ensures ReplaceTemplateVariables(pre + "{{" + key + "}}" + post, variables, prettyJson)
         == pre + RenderKey(key, variables, prettyJson) + ReplaceTemplateVariables(post, variables, prettyJson)
  {
    var replacer := k => RenderKey(k, variables, prettyJson);
    ReplaceMiddle(pre, key, post, replacer);
    assert replacer(key) == RenderKey(key, variables, prettyJson);
  }

  /** A placeholder whose key is absent from the bag leaves the visible
      marker in the prompt: for a template of the shape
      `pre {{key}} post` where `pre` is literal text. */
  lemma MissingKeyLeavesMarker(pre: string, key: string, post: string, variables: map<string, Value>, prettyJson: Value -> string)
    requires LiteralText(pre) && WellFormedKey(key) && Trim(key) !in variables
    ensures Contains(ReplaceTemplateVariables(pre + "{{" + key + "}}" + post, variables, prettyJson), MissingMarker(Trim(key)))
  {
    ReplaceAfterLiteral(pre, key, post, variables, prettyJson);
    ContainsMiddle(pre, MissingMarker(Trim(key)), ReplaceTemplateVariables(post, variables, prettyJson));
  }

  /** A string value is inserted as it is, under its trimmed key: text in it
      that looks like a placeholder is not expanded again. */
  lemma StringValueInsertedVerbatim(key: string, v: string, variables: map<string, Value>, prettyJson: Value -> string)
    requires WellFormedKey(key) && Trim(key) in variables && variables[Trim(key)] == Str(v)
    ensures ReplaceTemplateVariables("{{" + key + "}}", variables, prettyJson) == v
  {
    var replacer := k => RenderKey(k, variables, prettyJson);
    ReplacePlaceholderPrefix(key, "", replacer);
    assert "{{" + key + "}}" + "" == "{{" + key + "}}";
    assert replacer(key) == v;
  }

  // ---------------------------------------------------------------------------
  // Path lookup

  /** The value reached from `v` by reading the properties `parts` in turn;
      undefined as soon as a value on the way is null or undefined. */
  function ValueAtPath(v: Value, parts: seq<string>): Value
    decreases |parts|
  {
    if parts == [] then v
    else if Nullish(v) then Undefined
    else ValueAtPath(Get(v, parts[0]), parts[1..])
  }

  /** Walking a path in two legs is walking it in one. */
  lemma {:induction false} ValueAtPathAppend(v: Value, first: seq<string>, second: seq<string>)
    ensures ValueAtPath(v, first + second) == ValueAtPath(ValueAtPath(v, first), second)
    decreases |first|
  {
    if first == [] {
      assert first + second == second;
    } else if Nullish(v) {
      if second != [] { UndefinedAtPath(second); }
    } else {
      assert (first + second)[1..] == first[1..] + second;
      ValueAtPathAppend(Get(v, first[0]), first[1..], second);
    }
  }

  lemma {:induction false} UndefinedAtPath(parts: seq<string>)
    ensures ValueAtPath(Undefined, parts) == Undefined
  {
  }

  /** Once the walk meets null or undefined before the last part, the
      result is undefined, whatever the rest of the path is. */
  lemma NullishStopsWalk(v: Value, first: seq<string>, rest: seq<string>)
    requires Nullish(ValueAtPath(v, first)) && rest != []
    ensures ValueAtPath(v, first + rest) == Undefined
  {
    ValueAtPathAppend(v, first, rest);
  }

  /** Only the last property may be null and still be returned as it is:
      a stored null at the end of the path comes back as null, not as
      undefined. */
  lemma StoredNullReturned(v: Value, first: seq<string>, last: string)
    requires !Nullish(ValueAtPath(v, first)) && Get(ValueAtPath(v, first), last) == Null
    ensures ValueAtPath(v, first + [last]) == Null
  {
    ValueAtPathAppend(v, first, [last]);
  }

  /** `getValueByPath(obj, path)`: splits `path` on `.` and reads one
      property per part, returning undefined (never throwing) as soon as
      the current value is null or undefined. */
  method GetValueByPath(obj: Value, path: string) returns (r: Value)
    ensures r == ValueAtPath(obj, SplitOn(path, {'.'}))
  {
    var parts := SplitOn(path, {'.'});
    var current := obj;
    var i := 0;
    while i < |parts|
      invariant 0 <= i <= |parts|
      invariant ValueAtPath(obj, parts) == ValueAtPath(current, parts[i..])
    {
      if current.Null? || current.Undefined? {
        assert parts[i..] != [];
        return Undefined;
      }
      assert parts[i..][1..] == parts[i + 1..];
      current := Get(current, parts[i]);
      i := i + 1;
    }
    return current;
  }

  /** `resolveVariables(variableMapping, stores)`: one entry per key of the
      mapping, each the value at that key's path. */
  method ResolveVariables(variableMapping: map<string, string>, stores: Value) returns (variables: map<string, Value>)
    ensures variables.Keys == variableMapping.Keys
    ensures forall key :: key in variableMapping ==>
              variables[key] == ValueAtPath(stores, SplitOn(variableMapping[key], {'.'}))
  {
    variables := map[];
    var remaining := variableMapping.Keys;
    while remaining != {}
      invariant remaining <= variableMapping.Keys
      invariant variables.Keys == variableMapping.Keys - remaining
      invariant forall key :: key in variables ==>
                  variables[key] == ValueAtPath(stores, SplitOn(variableMapping[key], {'.'}))
      decreases remaining
    {
      var key :| key in remaining;
      var value := GetValueByPath(stores, variableMapping[key]);
      variables := variables[key := value];
      remaining := remaining - {key};
    }
  }

  /** The three lookups stated as examples of path resolution:
      `{x:{y:5}}` at `x.y` is 5, at `x.z` is undefined, and `{}` at `x.y`
      is undefined. */
  lemma ExamplePaths()
    ensures ValueAtPath(Obj(map["x" := Obj(map["y" := Num(5)])]), SplitOn("x.y", {'.'})) == Num(5)
    ensures ValueAtPath(Obj(map["x" := Obj(map["y" := Num(5)])]), SplitOn("x.z", {'.'})) == Undefined
    ensures ValueAtPath(Obj(map[]), SplitOn("x.y", {'.'})) == Undefined
  {
    SplitTwo('x', 'y');
    SplitTwo('x', 'z');
  }

  lemma SplitTwo(a: char, b: char)
    requires a != '.' && b != '.'
    ensures SplitOn([a, '.', b], {'.'}) == [[a], [b]]
  {
    var s := [a, '.', b];
    assert s[1..] == ['.', b];
    assert FirstIn(s, {'.'}) == 1;
    assert s[..1] == [a] && s[2..] == [b];
    assert [b][1..] == [];
    assert FirstIn([b], {'.'}) == 1;
  }
}
