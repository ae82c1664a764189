/** The ECMAScript string operations the source relies on: `trim`,
    `split` on a set of single-character separators, `slice(0, n)`,
    number-to-string conversion and `parseInt`. Characters are Unicode
    scalar values (see README, "Left out", for UTF-16 code units). */
module Strings {
  import opened Wrappers

  /** The WhiteSpace and LineTerminator code points of ECMAScript: what
      `String.prototype.trim` removes and what `\s` matches in a regular
      expression. */
  const WhitespaceChars: set<char> :=
    {'\t', '\n', '\U{000B}', '\U{000C}', '\r', ' ', '\U{00A0}', '\U{1680}',
     '\U{2000}', '\U{2001}', '\U{2002}', '\U{2003}', '\U{2004}', '\U{2005}',
     '\U{2006}', '\U{2007}', '\U{2008}', '\U{2009}', '\U{200A}',
     '\U{2028}', '\U{2029}', '\U{202F}', '\U{205F}', '\U{3000}', '\U{FEFF}'}

  predicate IsWhitespace(c: char) {
    c in WhitespaceChars
  }

  predicate AllWhitespace(s: string) {
    forall i :: 0 <= i < |s| ==> IsWhitespace(s[i])
  }

  /** `s` occurs in `text` starting at index `i`. */
  predicate OccursAt(text: string, s: string, i: nat) {
    i + |s| <= |text| && text[i..i + |s|] == s
  }

  predicate Contains(text: string, s: string) {
    exists i :: 0 <= i <= |text| && OccursAt(text, s, i)
  }

  lemma ContainsMiddle(pre: string, s: string, post: string)
    ensures Contains(pre + s + post, s)
  {
    var text := pre + s + post;
    assert text[|pre|..|pre| + |s|] == s;
    assert OccursAt(text, s, |pre|);
  }

  /** `String.prototype.trimStart`: drops the leading whitespace and nothing else. */
  function TrimStart(s: string): (r: string)
    ensures |r| <= |s| && r == s[|s| - |r|..]
    ensures r == [] || !IsWhitespace(r[0])
  {
    if s != [] && IsWhitespace(s[0]) then TrimStart(s[1..]) else s
  }

  /** What `trimStart` drops is whitespace. */
  lemma {:induction false} TrimStartDropsWhitespace(s: string)
    ensures AllWhitespace(s[..|s| - |TrimStart(s)|])
  {
    if s != [] && IsWhitespace(s[0]) {
      TrimStartDropsWhitespace(s[1..]);
      assert s[..|s| - |TrimStart(s)|] == [s[0]] + s[1..][..|s| - 1 - |TrimStart(s[1..])|];
    }
  }

  /** `String.prototype.trimEnd`: drops the trailing whitespace and nothing else. */
  function TrimEnd(s: string): (r: string)
    ensures |r| <= |s| && r == s[..|r|]
    ensures r == [] || !IsWhitespace(r[|r| - 1])
  {
    if s != [] && IsWhitespace(s[|s| - 1]) then TrimEnd(s[..|s| - 1]) else s
  }

  /** What `trimEnd` drops is whitespace. */
  lemma {:induction false} TrimEndDropsWhitespace(s: string)
    ensures AllWhitespace(s[|TrimEnd(s)|..])
  {
    if s != [] && IsWhitespace(s[|s| - 1]) {
      var u := s[..|s| - 1];
      TrimEndDropsWhitespace(u);
      assert s[|TrimEnd(s)|..] == u[|TrimEnd(u)|..] + [s[|s| - 1]];
    }
  }

  /** `String.prototype.trim`. */
  function Trim(s: string): (r: string)
    ensures |r| <= |s|
    ensures r == [] || (!IsWhitespace(r[0]) && !IsWhitespace(r[|r| - 1]))
    ensures (s == [] || (!IsWhitespace(s[0]) && !IsWhitespace(s[|s| - 1]))) ==> r == s
  {
    TrimEnd(TrimStart(s))
  }

  /** `trim` leaves nothing exactly when the text is all whitespace. */
  lemma TrimEmptyIffAllWhitespace(s: string)
    ensures Trim(s) == [] <==> AllWhitespace(s)
  {
    var t := TrimStart(s);
    TrimStartDropsWhitespace(s);
    TrimEndDropsWhitespace(t);
    if Trim(s) == [] {
      assert t == [];
      assert s == s[..|s| - |t|];
    }
  }

  lemma {:induction false} TrimIdempotent(s: string)
    ensures Trim(Trim(s)) == Trim(s)
  {
  }

  /** JavaScript `s.slice(0, n)` for a non-negative `n`. */
  function Prefix(s: string, n: nat): (r: string)
    ensures |r| == if n <= |s| then n else |s|
    ensures r == s[..|r|]
  {
    if n <= |s| then s[..n] else s
  }

  // ---------------------------------------------------------------------------
  // Splitting

  /** Index of the first character of `s` that is in `seps`, or |s|. */
  function FirstIn(s: string, seps: set<char>): (k: nat)
    ensures k <= |s|
    ensures k < |s| ==> s[k] in seps
    ensures forall i :: 0 <= i < k ==> s[i] !in seps
  {
    if s == [] then 0 else if s[0] in seps then 0 else 1 + FirstIn(s[1..], seps)
  }

  predicate NoneIn(s: string, seps: set<char>) {
    forall i :: 0 <= i < |s| ==> s[i] !in seps
  }

  /** `s.split(re)` for a regular expression `re` that matches exactly one
      character of `seps`: the pieces between separators, empty ones included. */
  function SplitOn(s: string, seps: set<char>): (r: seq<string>)
    ensures |r| >= 1
    ensures forall i :: 0 <= i < |r| ==> NoneIn(r[i], seps)
    decreases |s|
  {
    var k := FirstIn(s, seps);
    if k == |s| then [s] else [s[..k]] + SplitOn(s[k + 1..], seps)
  }

  /** `pieces.join(sep)`. */
  function JoinWith(pieces: seq<string>, sep: char): string
    requires |pieces| >= 1
  {
    if |pieces| == 1 then pieces[0] else pieces[0] + [sep] + JoinWith(pieces[1..], sep)
  }

  /** Splitting on one separator and joining with it gives the string back. */
  lemma {:induction false} SplitJoin(s: string, sep: char)
    ensures JoinWith(SplitOn(s, {sep}), sep) == s
    decreases |s|
  {
    var k := FirstIn(s, {sep});
    if k < |s| {
      SplitJoin(s[k + 1..], sep);
      assert s == s[..k] + [sep] + s[k + 1..];
    }
  }

  /** The characters of `s` that are not in `seps`, in order. */
  function Without(s: string, seps: set<char>): string {
    if s == [] then [] else (if s[0] in seps then [] else [s[0]]) + Without(s[1..], seps)
  }

  /** Number of characters of `s` that are in `seps`. */
  function CountIn(s: string, seps: set<char>): nat {
    if s == [] then 0 else (if s[0] in seps then 1 else 0) + CountIn(s[1..], seps)
  }

  function Concat(pieces: seq<string>): string {
    if pieces == [] then [] else pieces[0] + Concat(pieces[1..])
  }

  lemma {:induction false} WithoutAppend(a: string, b: string, seps: set<char>)
    ensures Without(a + b, seps) == Without(a, seps) + Without(b, seps)
    ensures CountIn(a + b, seps) == CountIn(a, seps) + CountIn(b, seps)
  {
    if a != [] {
      assert (a + b)[0] == a[0];
      assert (a + b)[1..] == a[1..] + b;
      WithoutAppend(a[1..], b, seps);
    } else {
      assert a + b == b;
    }
  }

  lemma {:induction false} WithoutNone(s: string, seps: set<char>)
    requires NoneIn(s, seps)
    ensures Without(s, seps) == s && CountIn(s, seps) == 0
  {
    if s != [] { WithoutNone(s[1..], seps); }
  }

  /** Concatenation regrouped; stated once here so that proofs about
      recursive functions need not rediscover it. */
  lemma Regroup<T>(a: seq<T>, b: seq<T>, c: seq<T>)
    ensures a + (b + c) == a + b + c
  {
  }

  /** `a + b + c + d + e` is `a` followed by the rest. */
  lemma RegroupFront<T>(a: seq<T>, b: seq<T>, c: seq<T>, d: seq<T>, e: seq<T>)
    ensures a + b + c + d + e == a + (b + c + d + e)
  {
  }

  /** The pieces of a split are exactly the non-separator characters, in
      order, and there is one more piece than there are separators. */
  lemma {:induction false} SplitPieces(s: string, seps: set<char>)
    ensures Concat(SplitOn(s, seps)) == Without(s, seps)
    ensures |SplitOn(s, seps)| == CountIn(s, seps) + 1
    decreases |s|
  {
    var k := FirstIn(s, seps);
    var pre := s[..k];
    assert NoneIn(pre, seps);
    WithoutNone(pre, seps);
    if k == |s| {
      assert pre == s;
    } else {
      var rest := s[k + 1..];
      SplitPieces(rest, seps);
      assert s == pre + ([s[k]] + rest);
      WithoutAppend(pre, [s[k]] + rest, seps);
      SeparatorDropped(s[k], rest, seps);
      var r := SplitOn(s, seps);
      assert r == [pre] + SplitOn(rest, seps);
      assert r[0] == pre && r[1..] == SplitOn(rest, seps);
    }
  }

  /** A leading separator is dropped and counted. */
  lemma SeparatorDropped(c: char, rest: string, seps: set<char>)
    requires c in seps
    ensures Without([c] + rest, seps) == Without(rest, seps)
    ensures CountIn([c] + rest, seps) == 1 + CountIn(rest, seps)
  {
    assert ([c] + rest)[1..] == rest;
  }

  // ---------------------------------------------------------------------------
  // Numbers and their text

  predicate IsDigit(c: char) { '0' <= c <= '9' }

  predicate AllDigits(s: string) { forall i :: 0 <= i < |s| ==> IsDigit(s[i]) }

  function DigitChar(d: nat): (c: char)
    requires d < 10
    ensures IsDigit(c) && (c as int) - ('0' as int) == d
  {
    (('0' as int) + d) as char
  }

  /** The value of digit `c` in base `radix` (2..36), if it is one: `0`-`9`
      and then `a`-`z` or `A`-`Z` for 10..35. */
  function DigitIn(c: char, radix: nat): (r: Option<nat>)
    ensures r.Some? ==> r.value < radix
    ensures radix == 10 ==> (r.Some? <==> IsDigit(c))
    ensures IsDigit(c) && radix == 10 ==> r == Some((c as int) - ('0' as int))
  {
    var v: int :=
      if IsDigit(c) then (c as int) - ('0' as int)
      else if 'a' <= c <= 'z' then (c as int) - ('a' as int) + 10
      else if 'A' <= c <= 'Z' then (c as int) - ('A' as int) + 10
      else radix;
    if 0 <= v < radix then Some(v) else None
  }

  /** Length of the longest prefix of `s` made of base-`radix` digits. */
  function DigitRun(s: string, radix: nat): (k: nat)
    ensures k <= |s|
    ensures forall i :: 0 <= i < k ==> DigitIn(s[i], radix).Some?
    ensures k < |s| ==> DigitIn(s[k], radix).None?
  {
    if s != [] && DigitIn(s[0], radix).Some? then 1 + DigitRun(s[1..], radix) else 0
  }

  function RadixValue(s: string, radix: nat): nat
    requires forall i :: 0 <= i < |s| ==> DigitIn(s[i], radix).Some?
  {
    if s == [] then 0
    else
      var init := s[..|s| - 1];
      assert forall i :: 0 <= i < |init| ==> init[i] == s[i];
      var high: nat := RadixValue(init, radix);
      var digit: nat := DigitIn(s[|s| - 1], radix).value;
      NatProduct(high, radix);
      high * radix + digit
  }

  lemma NatProduct(a: nat, b: nat)
    ensures a * b >= 0
  {
  }

  /** Decimal text of `n` with no leading zero: JavaScript `String(n)` for a
      non-negative integer. */
  function NatToString(n: nat): (r: string)
    ensures |r| >= 1 && AllDigits(r)
    ensures r[0] == '0' ==> n == 0 && r == "0"
  {
    if n < 10 then [DigitChar(n)] else NatToString(n / 10) + [DigitChar(n % 10)]
  }

  function IntToString(i: int): (r: string)
    ensures |r| >= 1
  {
    if i < 0 then "-" + NatToString(-i) else NatToString(i)
  }

  lemma {:induction false} NatToStringValue(n: nat)
    ensures RadixValue(NatToString(n), 10) == n
  {
    if n >= 10 {
      NatToStringValue(n / 10);
      var s := NatToString(n);
      assert s[..|s| - 1] == NatToString(n / 10);
    }
  }

  /** A canonical array index key: digits with no leading zero
      ("0", "1", "12", but not "01" or ""). */
  function CanonicalIndex(key: string): (r: Option<nat>)
    ensures r.Some? ==> NatToString(r.value) == key
  {
    if |key| >= 1 && AllDigits(key) && (key[0] != '0' || |key| == 1) then
      CanonicalIndexValue(key);
      Some(RadixValue(key, 10))
    else None
  }

  lemma {:induction false} CanonicalIndexValue(key: string)
    requires |key| >= 1 && AllDigits(key) && (key[0] != '0' || |key| == 1)
    ensures NatToString(RadixValue(key, 10)) == key
    decreases |key|
  {
    var v := RadixValue(key, 10);
    var d := (key[|key| - 1] as int) - ('0' as int);
    if |key| == 1 {
      assert key[..0] == [];
      assert v == RadixValue(key[..0], 10) * 10 + DigitIn(key[0], 10).value;
      assert v == d;
      assert NatToString(v) == [DigitChar(d)];
    } else {
      var init := key[..|key| - 1];
      CanonicalIndexValue(init);
      var u := RadixValue(init, 10);
      assert v == u * 10 + d;
      assert u >= 1;
      assert v / 10 == u && v % 10 == d;
    }
  }

  lemma CanonicalIndexOfNat(n: nat)
    ensures CanonicalIndex(NatToString(n)) == Some(n)
  {
    NatToStringValue(n);
  }

  /** The digits part of JavaScript `parseInt`, after the sign: a `0x`/`0X`
      prefix selects base 16, then the longest run of digits is read; no
      digit at all gives `None` (NaN). */
  function ParseUnsigned(u: string): (r: Option<nat>)
    ensures u == [] ==> r.None?
  {
    var hex := |u| >= 2 && u[0] == '0' && (u[1] == 'x' || u[1] == 'X');
    var radix := if hex then 16 else 10;
    var body := if hex then u[2..] else u;
    var digits := body[..DigitRun(body, radix)];
    if digits == [] then None else Some(RadixValue(digits, radix))
  }

  /** JavaScript `parseInt(s)` with no radix argument, with `None` for NaN:
      leading whitespace is skipped, then an optional sign is read, then
      the digits as in `ParseUnsigned`. */
  function ParseInt(s: string): (r: Option<int>)
    ensures AllWhitespace(s) ==> r.None?
  {
    var t := TrimStart(s);
    var negative := |t| > 0 && t[0] == '-';
    var u := if |t| > 0 && (t[0] == '-' || t[0] == '+') then t[1..] else t;
    match ParseUnsigned(u)
    case None => None
    case Some(m) => var v: int := m; Some(if negative then -v else v)
  }

  /** JavaScript `Number(s)` for text that spells an integer in decimal:
      surrounding whitespace is ignored, blank text is 0, and an optional
      sign may precede the digits. `None` stands for every other text,
      which JavaScript turns into NaN or into a number written as a
      fraction, with an exponent or in hex, none of which is modelled. */
  function StringToNumber(s: string): (r: Option<int>)
  {
    var t := Trim(s);
    if t == [] then Some(0)
    else
      var u := if t[0] == '-' || t[0] == '+' then t[1..] else t;
      if u != [] && DigitRun(u, 10) == |u| then
        var m: int := RadixValue(u, 10);
        Some(if t[0] == '-' then -m else m)
      else None
  }

  /** Blank text is the number 0. */
  lemma BlankTextIsZero(s: string)
    requires AllWhitespace(s)
    ensures StringToNumber(s) == Some(0)
  {
    TrimEmptyIffAllWhitespace(s);
  }

  /** `Number(String(i)) == i` for every integer. */
  lemma StringToNumberOfIntToString(i: int)
    ensures StringToNumber(IntToString(i)) == Some(i)
  {
    var s := IntToString(i);
    var m: nat := if i < 0 then -i else i;
    var digits := NatToString(m);
    DecimalDigits(m);
    if i < 0 {
      assert s == "-" + digits && s[1..] == digits;
    }
    assert s[|s| - 1] == digits[|digits| - 1];
    TrimmedEnds(s);
    var u := if s[0] == '-' || s[0] == '+' then s[1..] else s;
    assert u == digits;
    var v: int := m;
    assert (if s[0] == '-' then -v else v) == i;
  }

  /** The decimal text of `n` is all digits and reads back as `n`. */
  lemma DecimalDigits(n: nat)
    ensures var d := NatToString(n);
            && DigitRun(d, 10) == |d| && RadixValue(d, 10) == n
            && !IsWhitespace(d[0]) && !IsWhitespace(d[|d| - 1]) && d[0] != '-' && d[0] != '+'
  {
    var d := NatToString(n);
    NatToStringValue(n);
    assert DigitRun(d, 10) == |d|;
    DigitNotBlank(d[0]);
    DigitNotBlank(d[|d| - 1]);
  }

  lemma DigitNotBlank(c: char)
    requires IsDigit(c)
    ensures !IsWhitespace(c) && c != '-' && c != '+'
  {
  }

  /** Text that starts and ends with non-whitespace is its own trim. */
  lemma TrimmedEnds(s: string)
    requires |s| >= 1 && !IsWhitespace(s[0]) && !IsWhitespace(s[|s| - 1])
    ensures Trim(s) == s
  {
  }


  lemma ParseUnsignedOfNatToString(m: nat)
    ensures ParseUnsigned(NatToString(m)) == Some(m)
  {
    var u := NatToString(m);
    NatToStringValue(m);
    assert DigitRun(u, 10) == |u|;
    assert u[..|u|] == u;
  }

  /** `parseInt(String(i)) == i` for every integer. */
  lemma ParseIntOfIntToString(i: int)
    ensures ParseInt(IntToString(i)) == Some(i)
  {
    var s := IntToString(i);
    var m: nat := if i < 0 then -i else i;
    var digits := NatToString(m);
    ParseUnsignedOfNatToString(m);
    assert !IsWhitespace(s[0]);
    assert TrimStart(s) == s;
    var u := if s[0] == '-' || s[0] == '+' then s[1..] else s;
    assert u == digits;
    assert ParseUnsigned(u) == Some(m);
  }
}
