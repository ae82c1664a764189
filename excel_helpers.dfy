/** The pure helpers of src/composables/useExcel.js: turning spreadsheet
    rows into notes (`normalizeData`, `parseTag`), the filter-and-sort
    search over notes (`advancedSearch`, `sortResults`), and the guard
    branches of `searchData` and `randomSelect`. Date parsing, `parseFloat`,
    the fuzzy index and the shuffle are parameters. */
module ExcelHelpers {
  import opened Wrappers
  import opened Strings
  import opened JsValues
  import opened Sequences

  // ---------------------------------------------------------------------------
  // Tags

  /** The characters of the tag separator class `[,，、]`. */
  const TagSeparators: set<char> := {',', '，', '、'}

  /** A tag as `parseTag` produces it from a string. */
  predicate CleanTag(t: string) {
    t != [] && Trim(t) == t && NoneIn(t, TagSeparators)
  }

  lemma SliceKeepsNone(s: string, i: nat, j: nat, seps: set<char>)
    requires i <= j <= |s| && NoneIn(s, seps)
    ensures NoneIn(s[i..j], seps)
  {
    assert forall k :: 0 <= k < j - i ==> s[i..j][k] == s[i + k];
  }

  /** Trimming does not bring in a separator. */
  lemma TrimKeepsNone(s: string, seps: set<char>)
    requires NoneIn(s, seps)
    ensures NoneIn(Trim(s), seps)
  {
    var t := TrimStart(s);
    SliceKeepsNone(s, |s| - |t|, |s|, seps);
    SliceKeepsNone(t, 0, |TrimEnd(t)|, seps);
  }

  lemma TrimmedPieceClean(p: string)
    requires NoneIn(p, TagSeparators) && Trim(p) != ""
    ensures CleanTag(Trim(p))
  {
    TrimKeepsNone(p, TagSeparators);
    TrimIdempotent(p);
  }

  /** `pieces.map(t => t.trim()).filter(Boolean)`. */
  function CleanPieces(pieces: seq<string>): (r: seq<string>)
    ensures |r| <= |pieces|
  {
    if pieces == [] then []
    else
      var t := Trim(pieces[0]);
      (if t == "" then [] else [t]) + CleanPieces(pieces[1..])
  }

  /** Trimming pieces that hold no separator gives clean tags. */
  lemma {:induction false} CleanPiecesClean(pieces: seq<string>)
    requires forall i :: 0 <= i < |pieces| ==> NoneIn(pieces[i], TagSeparators)
    ensures forall i :: 0 <= i < |CleanPieces(pieces)| ==> CleanTag(CleanPieces(pieces)[i])
    decreases |pieces|
  {
    if pieces != [] {
      var t := Trim(pieces[0]);
      var rest := CleanPieces(pieces[1..]);
      assert forall i :: 1 <= i < |pieces| ==> pieces[1..][i - 1] == pieces[i];
      CleanPiecesClean(pieces[1..]);
      if t != "" {
        TrimmedPieceClean(pieces[0]);
        var r := [t] + rest;
        assert CleanPieces(pieces) == r;
        forall i | 0 <= i < |r| ensures CleanTag(r[i]) {
          if i > 0 { assert r[i] == rest[i - 1]; }
        }
      }
    }
  }

  /** The tags of a tag string: every one non-empty, trimmed and free of
      separators, and no more of them than the pieces between separators. */
  function SplitTags(s: string): (r: seq<string>)
    ensures forall i :: 0 <= i < |r| ==> CleanTag(r[i])
    ensures |r| <= CountIn(s, TagSeparators) + 1
  {
    var pieces := SplitOn(s, TagSeparators);
    SplitPieces(s, TagSeparators);
    CleanPiecesClean(pieces);
    CleanPieces(pieces)
  }

  function AsStrings(tags: seq<string>): (r: seq<Value>)
    ensures |r| == |tags| && forall i :: 0 <= i < |r| ==> r[i] == Str(tags[i])
  {
    if tags == [] then [] else [Str(tags[0])] + AsStrings(tags[1..])
  }

  /** `parseTag(tagString)`: a falsy value gives no tags, an array is
      returned as it is, a string is split on the separators with every
      piece trimmed and the empty pieces dropped; any other value has no
      `split` method, which throws. */
  function ParseTag(tagString: Value): (r: Result<seq<Value>>)
    ensures !Truthy(tagString) ==> r == Ok([])
    ensures tagString.Arr? ==> r == Ok(tagString.items)
    ensures tagString.Str? ==> r == Ok(AsStrings(SplitTags(tagString.s)))
    ensures r.Err? <==> Truthy(tagString) && !tagString.Arr? && !tagString.Str?
  {
    if !Truthy(tagString) then
      assert tagString.Str? ==> SplitTags(tagString.s) == [];
      Ok([])
    else match tagString
      case Arr(items) => Ok(items)
      case Str(s) => Ok(AsStrings(SplitTags(s)))
      case _ => Err("tagString.split is not a function")
  }

  /** The first separator of `a + [c] + b` is `c` when `a` has none. */
  lemma {:induction false} FirstInAfter(a: string, c: char, b: string, seps: set<char>)
    requires NoneIn(a, seps) && c in seps
    ensures FirstIn(a + [c] + b, seps) == |a|
    decreases |a|
  {
    if a != [] {
      assert (a + [c] + b)[1..] == a[1..] + [c] + b;
      FirstInAfter(a[1..], c, b, seps);
    }
  }

  lemma FirstInNone(a: string, seps: set<char>)
    requires NoneIn(a, seps)
    ensures FirstIn(a, seps) == |a|
  {
  }

  /** Splitting tags joined by one of the separators gives them back. */
  lemma {:induction false} SplitJoined(tags: seq<string>, sep: char)
    requires |tags| >= 1 && sep in TagSeparators
    requires forall i :: 0 <= i < |tags| ==> NoneIn(tags[i], TagSeparators)
    ensures SplitOn(JoinWith(tags, sep), TagSeparators) == tags
    decreases |tags|
  {
    if |tags| == 1 {
      FirstInNone(tags[0], TagSeparators);
    } else {
      var rest := JoinWith(tags[1..], sep);
      var s := tags[0] + [sep] + rest;
      FirstInAfter(tags[0], sep, rest, TagSeparators);
      assert s[..|tags[0]|] == tags[0];
      assert s[|tags[0]| + 1..] == rest;
      SplitJoined(tags[1..], sep);
      assert tags == [tags[0]] + tags[1..];
    }
  }

  lemma {:induction false} CleanPiecesOfClean(tags: seq<string>)
    requires forall i :: 0 <= i < |tags| ==> CleanTag(tags[i])
    ensures CleanPieces(tags) == tags
    decreases |tags|
  {
    if tags != [] {
      CleanPiecesOfClean(tags[1..]);
      assert tags == [tags[0]] + tags[1..];
    }
  }

  /** Clean tags written out with a separator parse back to themselves. */
  lemma ParseTagOfJoined(tags: seq<string>, sep: char)
    requires |tags| >= 1 && sep in TagSeparators
    requires forall i :: 0 <= i < |tags| ==> CleanTag(tags[i])
    ensures ParseTag(Str(JoinWith(tags, sep))) == Ok(AsStrings(tags))
    ensures SplitTags(JoinWith(tags, sep)) == tags
  {
    SplitJoined(tags, sep);
    CleanPiecesOfClean(tags);
  }

  // ---------------------------------------------------------------------------
  // Notes

  /** A number read by `parseInt`, with `None` for NaN. */
  type Count = Option<int>

  datatype Metrics = Metrics(likes: Count, collects: Count, comments: Count, shares: Count,
                             engagementRate: Option<real>)

  /** One normalised row. */
  datatype Note = Note(id: Value, title: Value, content: Value, tags: seq<Value>, author: Value,
                       publishTime: Value, metrics: Metrics, link: Value, rawData: Value)

  /** The spreadsheet columns `normalizeData` reads, each under a Chinese
      header with an English fallback. */
  datatype Field =
    | Id | Title | Content | Tags | Author | PublishTime | Link
    | Likes | Collects | Comments | Shares | EngagementRate

  function ChineseHeader(f: Field): string {
    match f
    case Id => "笔记ID"
    case Title => "笔记标题"
    case Content => "笔记正文"
    case Tags => "笔记标签"
    case Author => "作者昵称"
    case PublishTime => "发布时间"
    case Link => "笔记链接"
    case Likes => "点赞数"
    case Collects => "收藏数"
    case Comments => "评论数"
    case Shares => "分享数"
    case EngagementRate => "互动率"
  }

  function EnglishHeader(f: Field): string {
    match f
    case Id => "id"
    case Title => "title"
    case Content => "content"
    case Tags => "tags"
    case Author => "author"
    case PublishTime => "publishTime"
    case Link => "link"
    case Likes => "likes"
    case Collects => "collects"
    case Comments => "comments"
    case Shares => "shares"
    case EngagementRate => "engagementRate"
  }

  /** `item[chinese] || item[english] || fallback`. */
  function Cell(item: Value, f: Field, fallback: Value): (r: Value)
    ensures Truthy(Get(item, ChineseHeader(f))) ==> r == Get(item, ChineseHeader(f))
    ensures !Truthy(Get(item, ChineseHeader(f))) && Truthy(Get(item, EnglishHeader(f))) ==> r == Get(item, EnglishHeader(f))
    ensures !Truthy(Get(item, ChineseHeader(f))) && !Truthy(Get(item, EnglishHeader(f))) ==> r == fallback
  {
    Or(Or(Get(item, ChineseHeader(f)), Get(item, EnglishHeader(f))), fallback)
  }

  /** A text column, `|| ''`. */
  function Column(item: Value, f: Field): Value {
    Cell(item, f, Str(""))
  }

  /** `parseInt(item[chinese] || item[english] || 0)`. */
  function CountColumn(item: Value, f: Field): Count {
    ParseInt(ToDisplayString(Cell(item, f, Num(0))))
  }

  /** A non-zero number in the Chinese column is read back unchanged. */
  lemma CountOfNumber(item: Value, f: Field)
    requires Get(item, ChineseHeader(f)).Num? && Get(item, ChineseHeader(f)).n != 0
    ensures CountColumn(item, f) == Some(Get(item, ChineseHeader(f)).n)
  {
    var n := Get(item, ChineseHeader(f)).n;
    assert Cell(item, f, Num(0)) == Num(n);
    ParseIntOfIntToString(n);
  }

  /** A row with neither column set counts 0. */
  lemma CountOfBlank(item: Value, f: Field)
    requires !Truthy(Get(item, ChineseHeader(f))) && !Truthy(Get(item, EnglishHeader(f)))
    ensures CountColumn(item, f) == Some(0)
  {
    assert Cell(item, f, Num(0)) == Num(0);
    ParseIntOfIntToString(0);
  }

  /** The row as a note, for a row that was read without an exception. */
  function NoteOf(item: Value, tags: seq<Value>, parseFloat: string -> Option<real>): Note {
    var metrics := Metrics(CountColumn(item, Likes), CountColumn(item, Collects), CountColumn(item, Comments),
                           CountColumn(item, Shares), parseFloat(ToDisplayString(Cell(item, EngagementRate, Num(0)))));
    Note(Column(item, Id), Column(item, Title), Column(item, Content), tags, Column(item, Author),
         Column(item, PublishTime), metrics, Column(item, Link), item)
  }

  /** One row of `normalizeData` (`parseFloat` is the parameter
      `parseFloat`). Reading a column of a null or undefined row throws,
      and so does a tag cell `parseTag` rejects; otherwise each field is
      its column, with the tags parsed. */
  function NormalizeItem(item: Value, parseFloat: string -> Option<real>): (r: Result<Note>)
    ensures r.Err? <==> Nullish(item) || ParseTag(Column(item, Tags)).Err?
    ensures r.Ok? ==> r == Ok(NoteOf(item, ParseTag(Column(item, Tags)).value, parseFloat))
    ensures r.Ok? ==> r.value.rawData == item && r.value.id == Column(item, Id)
  {
    if Nullish(item) then Err(TypeErrorMessage(item, ChineseHeader(Id)))
    else
      match ParseTag(Column(item, Tags))
      case Err(m) => Err(m)
      case Ok(tags) => Ok(NoteOf(item, tags, parseFloat))
  }

  function NormalizeWith(parseFloat: string -> Option<real>): Value -> Result<Note> {
    (item: Value) => NormalizeItem(item, parseFloat)
  }

  /** `normalizeData(rawData)`: one note per row, in order; the first row
      that throws aborts the whole call with its error. */
  function NormalizeData(rawData: seq<Value>, parseFloat: string -> Option<real>): (r: Result<seq<Note>>)
    ensures r.Ok? ==> |r.value| == |rawData|
                      && forall i :: 0 <= i < |rawData| ==> NormalizeItem(rawData[i], parseFloat) == Ok(r.value[i])
    ensures r.Err? ==> exists i :: && 0 <= i < |rawData|
                                   && NormalizeItem(rawData[i], parseFloat) == Err(r.message)
                                   && forall k :: 0 <= k < i ==> NormalizeItem(rawData[k], parseFloat).Ok?
  {
    MapAll(rawData, NormalizeWith(parseFloat))
  }

  /** `normalizeData` fails exactly when some row does. */
  lemma NormalizeDataFails(rawData: seq<Value>, parseFloat: string -> Option<real>)
    ensures NormalizeData(rawData, parseFloat).Err?
            <==> exists i :: 0 <= i < |rawData| && NormalizeItem(rawData[i], parseFloat).Err?
  {
    MapAllFails(rawData, NormalizeWith(parseFloat));
  }

  // ---------------------------------------------------------------------------
  // Searching

  datatype DateRange = DateRange(start: int, end: int)

  /** The filter object of `advancedSearch`. A zero threshold, an empty tag
      list, no date range and an empty `sortBy` are the falsy (inactive)
      settings; `sortOrder` is `None` when it is not given. */
  datatype Filters = Filters(minEngagementRate: real, minLikes: int, tags: seq<Value>,
                             dateRange: Option<DateRange>, sortBy: string, sortOrder: Option<string>)

  predicate RateAtLeast(note: Note, min: real) {
    note.metrics.engagementRate.Some? && note.metrics.engagementRate.value >= min
  }

  predicate LikesAtLeast(note: Note, min: int) {
    note.metrics.likes.Some? && note.metrics.likes.value >= min
  }

  /** `tags.some(tag => note.tags.includes(tag))`. */
  predicate SharesTag(note: Note, tags: seq<Value>) {
    exists i :: 0 <= i < |tags| && tags[i] in note.tags
  }

  /** `new Date(publishTime).getTime()` (the parameter `timeOf`, `None`
      for an invalid date) lies in the range. */
  predicate PublishedIn(note: Note, range: DateRange, timeOf: Value -> Option<int>) {
    timeOf(note.publishTime).Some? && range.start <= timeOf(note.publishTime).value <= range.end
  }

  /** A note passes every active filter. */
  predicate Matches(note: Note, filters: Filters, timeOf: Value -> Option<int>) {
    && (filters.minEngagementRate != 0.0 ==> RateAtLeast(note, filters.minEngagementRate))
    && (filters.minLikes != 0 ==> LikesAtLeast(note, filters.minLikes))
    && (|filters.tags| > 0 ==> SharesTag(note, filters.tags))
    && (filters.dateRange.Some? ==> PublishedIn(note, filters.dateRange.value, timeOf))
  }

  /** The test `filter` applies, as a function value. */
  function KeepRate(min: real): Note -> bool {
    (n: Note) => RateAtLeast(n, min)
  }

  function KeepLikes(min: int): Note -> bool {
    (n: Note) => LikesAtLeast(n, min)
  }

  function KeepTags(tags: seq<Value>): Note -> bool {
    (n: Note) => SharesTag(n, tags)
  }

  function KeepDates(range: DateRange, timeOf: Value -> Option<int>): Note -> bool {
    (n: Note) => PublishedIn(n, range, timeOf)
  }

  function KeepMatching(filters: Filters, timeOf: Value -> Option<int>): Note -> bool {
    (n: Note) => Matches(n, filters, timeOf)
  }

  /** A test that passes everything while `active` is false. */
  function Gate(active: bool, keep: Note -> bool): Note -> bool {
    (n: Note) => !active || keep(n)
  }

  function Both(f: Note -> bool, g: Note -> bool): Note -> bool {
    (n: Note) => f(n) && g(n)
  }

  /** `if (active) results = results.filter(keep)`. */
  function Stage(s: seq<Note>, active: bool, keep: Note -> bool): seq<Note> {
    if active then Filter(s, keep) else s
  }

  lemma StageIsFilter(s: seq<Note>, active: bool, keep: Note -> bool)
    ensures Stage(s, active, keep) == Filter(s, Gate(active, keep))
  {
    if active {
      FilterExt(s, keep, Gate(active, keep));
    } else {
      FilterAll(s, Gate(active, keep));
    }
  }

  /** The four filters of `advancedSearch`, each one passing everything
      while its setting is inactive. */
  function RateGate(filters: Filters): Note -> bool {
    Gate(filters.minEngagementRate != 0.0, KeepRate(filters.minEngagementRate))
  }

  function LikesGate(filters: Filters): Note -> bool {
    Gate(filters.minLikes != 0, KeepLikes(filters.minLikes))
  }

  function TagsGate(filters: Filters): Note -> bool {
    Gate(|filters.tags| > 0, KeepTags(filters.tags))
  }

  function DateGate(filters: Filters, timeOf: Value -> Option<int>): Note -> bool {
    if filters.dateRange.Some? then Gate(true, KeepDates(filters.dateRange.value, timeOf))
    else Gate(false, KeepRate(0.0))
  }

  /** The four filters of `advancedSearch`, each applied only when set. */
  function ApplyFilters(filters: Filters, data: seq<Note>, timeOf: Value -> Option<int>): seq<Note> {
    var byRate := Stage(data, filters.minEngagementRate != 0.0, KeepRate(filters.minEngagementRate));
    var byLikes := Stage(byRate, filters.minLikes != 0, KeepLikes(filters.minLikes));
    var byTags := Stage(byLikes, |filters.tags| > 0, KeepTags(filters.tags));
    if filters.dateRange.Some? then Filter(byTags, KeepDates(filters.dateRange.value, timeOf)) else byTags
  }

  lemma ApplyFiltersGated(filters: Filters, data: seq<Note>, timeOf: Value -> Option<int>)
    ensures ApplyFilters(filters, data, timeOf)
            == Filter(Filter(Filter(Filter(data, RateGate(filters)), LikesGate(filters)), TagsGate(filters)),
                      DateGate(filters, timeOf))
  {
    var s1 := Stage(data, filters.minEngagementRate != 0.0, KeepRate(filters.minEngagementRate));
    var s2 := Stage(s1, filters.minLikes != 0, KeepLikes(filters.minLikes));
    var s3 := Stage(s2, |filters.tags| > 0, KeepTags(filters.tags));
    StageIsFilter(data, filters.minEngagementRate != 0.0, KeepRate(filters.minEngagementRate));
    StageIsFilter(s1, filters.minLikes != 0, KeepLikes(filters.minLikes));
    StageIsFilter(s2, |filters.tags| > 0, KeepTags(filters.tags));
    if filters.dateRange.Some? {
      StageIsFilter(s3, true, KeepDates(filters.dateRange.value, timeOf));
    } else {
      StageIsFilter(s3, false, KeepRate(0.0));
    }
  }

  lemma GatesAreMatches(filters: Filters, timeOf: Value -> Option<int>, n: Note)
    ensures Both(Both(Both(RateGate(filters), LikesGate(filters)), TagsGate(filters)), DateGate(filters, timeOf))(n)
            == KeepMatching(filters, timeOf)(n)
  {
  }

  /** The filters in turn are one filter by all the active conditions. */
  lemma ApplyFiltersIsOneFilter(filters: Filters, data: seq<Note>, timeOf: Value -> Option<int>)
    ensures ApplyFilters(filters, data, timeOf) == Filter(data, KeepMatching(filters, timeOf))
  {
    var p1, p2, p3, p4 := RateGate(filters), LikesGate(filters), TagsGate(filters), DateGate(filters, timeOf);
    ApplyFiltersGated(filters, data, timeOf);
    FilterThenFilter(data, p1, p2, Both(p1, p2));
    FilterThenFilter(data, Both(p1, p2), p3, Both(Both(p1, p2), p3));
    FilterThenFilter(data, Both(Both(p1, p2), p3), p4, Both(Both(Both(p1, p2), p3), p4));
    forall n {
      GatesAreMatches(filters, timeOf, n);
    }
    FilterExt(data, Both(Both(Both(p1, p2), p3), p4), KeepMatching(filters, timeOf));
  }

  /** The sort keys of `sortResults`; `None` for NaN. An unknown field
      compares every pair as equal. */
  function SortValue(note: Note, sortBy: string, timeOf: Value -> Option<int>): Option<real> {
    if sortBy == "engagementRate" then note.metrics.engagementRate
    else if sortBy == "likes" then (if note.metrics.likes.Some? then Some(note.metrics.likes.value as real) else None)
    else if sortBy == "publishTime" then (if timeOf(note.publishTime).Some? then Some(timeOf(note.publishTime).value as real) else None)
    else Some(0.0)
  }

  /** Every note has a sort key (none of them is NaN). */
  predicate KeysDefined(data: seq<Note>, sortBy: string, timeOf: Value -> Option<int>) {
    forall i :: 0 <= i < |data| ==> SortValue(data[i], sortBy, timeOf).Some?
  }

  /** The key a stable descending sort uses: the value itself for
      `'desc'`, its negation for any other order. */
  function SortKey(sortBy: string, descending: bool, timeOf: Value -> Option<int>): Note -> real {
    (n: Note) => var v := SortValue(n, sortBy, timeOf).GetOr(0.0); if descending then v else -v
  }

  predicate IsDescending(order: Option<string>) {
    order.None? || order.value == "desc"
  }

  predicate KnownField(sortBy: string) {
    sortBy == "engagementRate" || sortBy == "likes" || sortBy == "publishTime"
  }

  /** `sortResults(data, sortBy, order)`: a permutation of `data` ordered
      by the field, decreasing for `'desc'` (the default) and increasing
      for any other order; notes with equal values keep their order, and
      an unknown field keeps the whole order. */
  function SortResults(data: seq<Note>, sortBy: string, order: Option<string>, timeOf: Value -> Option<int>): (r: seq<Note>)
    requires KeysDefined(data, sortBy, timeOf)
    ensures multiset(r) == multiset(data)
    ensures IsDescending(order) ==> forall i, j :: 0 <= i < j < |r| ==>
              SortValue(r[i], sortBy, timeOf).GetOr(0.0) >= SortValue(r[j], sortBy, timeOf).GetOr(0.0)
    ensures !IsDescending(order) ==> forall i, j :: 0 <= i < j < |r| ==>
              SortValue(r[i], sortBy, timeOf).GetOr(0.0) <= SortValue(r[j], sortBy, timeOf).GetOr(0.0)
    ensures var key := SortKey(sortBy, IsDescending(order), timeOf);
            Descending(r, key) && forall k :: WithKey(r, key, k) == WithKey(data, key, k)
    ensures !KnownField(sortBy) ==> r == data
  {
    var key := SortKey(sortBy, IsDescending(order), timeOf);
    SortByKeyFacts(data, key);
    if KnownField(sortBy) then SortByKey(data, key)
    else ConstantKeyKeepsOrder(data, key); SortByKey(data, key)
  }

  /** `advancedSearch(filters, data)`: the notes that pass every active
      filter, in their order, or sorted when `sortBy` is set. Sorting
      needs a value for every note that passes. */
  function AdvancedSearch(filters: Filters, data: seq<Note>, timeOf: Value -> Option<int>): (r: seq<Note>)
    requires filters.sortBy != "" ==> forall i :: 0 <= i < |data| && Matches(data[i], filters, timeOf) ==>
               SortValue(data[i], filters.sortBy, timeOf).Some?
    ensures forall n :: n in r <==> n in data && Matches(n, filters, timeOf)
    ensures filters.sortBy == "" ==> r == Filter(data, KeepMatching(filters, timeOf))
    ensures filters.sortBy != "" ==>
              && multiset(r) == multiset(Filter(data, KeepMatching(filters, timeOf)))
              && Descending(r, SortKey(filters.sortBy, IsDescending(filters.sortOrder), timeOf))
    ensures filters.sortBy != "" ==>
              && KeysDefined(Filter(data, KeepMatching(filters, timeOf)), filters.sortBy, timeOf)
              && r == SortResults(Filter(data, KeepMatching(filters, timeOf)), filters.sortBy, filters.sortOrder, timeOf)
  {
    var results := ApplyFilters(filters, data, timeOf);
    ApplyFiltersIsOneFilter(filters, data, timeOf);
    FilterFacts(data, KeepMatching(filters, timeOf));
    if filters.sortBy != "" then
      assert KeysDefined(results, filters.sortBy, timeOf) by {
        forall i | 0 <= i < |results|
          ensures SortValue(results[i], filters.sortBy, timeOf).Some?
        {
          assert results[i] in results;
        }
      }
      var sorted := SortResults(results, filters.sortBy, filters.sortOrder, timeOf);
      assert forall n :: n in sorted <==> n in results by {
        forall n ensures n in sorted <==> n in results {
          assert n in sorted <==> n in multiset(sorted);
        }
      }
      sorted
    else results
  }

  /** In a search without sorting, the notes keep their spreadsheet order. */
  lemma SearchKeepsOrder(filters: Filters, data: seq<Note>, timeOf: Value -> Option<int>)
    requires filters.sortBy == ""
    ensures Subsequence(AdvancedSearch(filters, data, timeOf), data)
  {
    FilterFacts(data, KeepMatching(filters, timeOf));
  }

  /** A search with no active filter and no sort returns the data as it is. */
  lemma EmptyFiltersKeepAll(data: seq<Note>, timeOf: Value -> Option<int>)
    ensures AdvancedSearch(Filters(0.0, 0, [], None, "", None), data, timeOf) == data
  {
    FilterAll(data, KeepMatching(Filters(0.0, 0, [], None, "", None), timeOf));
  }

  // ---------------------------------------------------------------------------
  // Fuzzy search and random sample

  /** A hit of the fuzzy index: the note with its score (smaller is closer). */
  datatype Hit = Hit(item: Value, score: real)

  const DefaultSearchLimit: int := 10

  /** `searchData(query, limit)`, with `indexReady` for an initialised
      index and `search` for the index's own search. Without an index, or
      for an empty or blank query, nothing is found; a non-string query
      has no `trim` method, which throws. */
  function SearchData(indexReady: bool, query: Value, limit: Option<int>,
                      search: (string, int) -> seq<Hit>): (r: Result<seq<Hit>>)
    ensures !indexReady ==> r == Ok([])
    ensures r.Err? <==> indexReady && Truthy(query) && !query.Str?
    ensures indexReady && query.Str? && AllWhitespace(query.s) ==> r == Ok([])
    ensures indexReady && query.Str? && !AllWhitespace(query.s) ==>
              r == Ok(search(query.s, limit.GetOr(DefaultSearchLimit)))
  {
    if !indexReady then Ok([])
    else if !Truthy(query) then Ok([])
    else if !query.Str? then Err("query.trim is not a function")
    else
      TrimEmptyIffAllWhitespace(query.s);
      if Trim(query.s) == "" then Ok([])
      else Ok(search(query.s, limit.GetOr(DefaultSearchLimit)))
  }

  lemma PrefixMultiset<T>(s: seq<T>, k: nat)
    requires k <= |s|
    ensures multiset(s[..k]) <= multiset(s)
  {
    assert s == s[..k] + s[k..];
  }

  /** `randomSelect(data, count)`, with `shuffled` for the shuffled copy:
      the data itself when it has no more than `count` notes, otherwise
      `count` of its notes (a negative count drops that many from the
      back of the shuffled copy). */
  function RandomSelect<T>(data: seq<T>, count: int, shuffled: seq<T>): (r: seq<T>)
    requires multiset(shuffled) == multiset(data)
    ensures |data| <= count ==> r == data
    ensures multiset(r) <= multiset(data)
    ensures |data| > count >= 0 ==> |r| == count
    ensures count < 0 ==> |r| == if |data| + count >= 0 then |data| + count else 0
  {
    if |data| <= count then data
    else
      assert |shuffled| == |data| by {
        assert |multiset(shuffled)| == |multiset(data)|;
      }
      var r := Slice(shuffled, Some(count));
      PrefixMultiset(shuffled, |r|);
      r
  }
}
