/** The history store of src/stores/history.js: a most-recent-first list
    of generation records, bounded by the `MAX_RECORDS` setting, with the
    id of the record being viewed. */
module HistoryStore {
  import opened Wrappers
  import opened Strings
  import opened JsValues
  import opened Sequences

  /** A stored record: its id, its timestamp (milliseconds) and the other
      fields the caller supplied. */
  datatype HistoryRecord = HistoryRecord(id: string, timestamp: int, fields: map<string, Value>)

  /** What a caller passes to `addRecord`: an `id` or `timestamp` of its
      own, when present, wins over the generated ones. */
  datatype Draft = Draft(id: Option<string>, timestamp: Option<int>, fields: map<string, Value>)

  /** `{ id: generatedId, timestamp: now, ...draft }`. */
  function NewRecord(draft: Draft, generatedId: string, now: int): (r: HistoryRecord)
    ensures r.id == (if draft.id.Some? then draft.id.value else generatedId)
    ensures r.timestamp == (if draft.timestamp.Some? then draft.timestamp.value else now)
    ensures r.fields == draft.fields
  {
    HistoryRecord(draft.id.GetOr(generatedId), draft.timestamp.GetOr(now), draft.fields)
  }

  /** `MAX_RECORDS = parseInt(setting || '10')`, with `None` for NaN. */
  function MaxRecordsOf(setting: string): Option<int> {
    ParseInt(if setting == "" then "10" else setting)
  }

  lemma DefaultMaxRecords()
    ensures MaxRecordsOf("") == Some(10)
  {
    assert "10" == IntToString(10);
    ParseIntOfIntToString(10);
  }

  /** The list after `addRecord`: the new record in front, then cut back
      to `max` entries when it has grown longer (never when `max` is NaN). */
  function AfterAdd(records: seq<HistoryRecord>, r: HistoryRecord, max: Option<int>): seq<HistoryRecord> {
    var grown := [r] + records;
    if max.Some? && |grown| > max.value then Slice(grown, max) else grown
  }

  /** Bounded by a non-negative, non-NaN `MAX_RECORDS`. */
  predicate Bounded(records: seq<HistoryRecord>, max: Option<int>) {
    max.Some? && max.value >= 0 ==> |records| <= max.value
  }

  /** With room for at least one record, the new record comes first and
      the previous records follow in order, the oldest ones dropped. */
  lemma AddKeepsNewest(records: seq<HistoryRecord>, r: HistoryRecord, m: int)
    requires m >= 1
    ensures var after := AfterAdd(records, r, Some(m));
            && |after| == (if |records| + 1 <= m then |records| + 1 else m)
            && after[0] == r
            && after[1..] == records[..|after| - 1]
            && Bounded(after, Some(m))
  {
    var grown := [r] + records;
    assert grown[1..] == records;
    if |grown| > m {
      assert AfterAdd(records, r, Some(m)) == grown[..m];
      assert grown[..m][1..] == records[..m - 1];
    }
  }

  /** `records.findIndex(r => r.id === id)`. */
  function FindIndex(records: seq<HistoryRecord>, id: string): (i: int)
    ensures -1 <= i < |records|
    ensures i >= 0 ==> records[i].id == id
    ensures forall k :: 0 <= k < |records| && (i < 0 || k < i) ==> records[k].id != id
  {
    if records == [] then -1
    else if records[0].id == id then 0
    else var j := FindIndex(records[1..], id); if j < 0 then -1 else j + 1
  }

  /** `records.find(r => r.id === id)`, with `None` for undefined. */
  function FirstWithId(records: seq<HistoryRecord>, id: string): (r: Option<HistoryRecord>)
    ensures r.Some? <==> FindIndex(records, id) >= 0
    ensures r.Some? ==> r.value == records[FindIndex(records, id)]
  {
    var i := FindIndex(records, id);
    if i < 0 then None else Some(records[i])
  }

  /** The list after `deleteRecord(id)`: the first record with that id
      taken out, nothing changed if there is none. */
  function RemoveFirst(records: seq<HistoryRecord>, id: string): seq<HistoryRecord> {
    var i := FindIndex(records, id);
    if i < 0 then records else records[..i] + records[i + 1..]
  }

  /** Only the first record with the id goes: the list shrinks by one, and
      every other record stays, in order. */
  lemma RemoveFirstFacts(records: seq<HistoryRecord>, id: string)
    ensures var i := FindIndex(records, id);
            var after := RemoveFirst(records, id);
            && (i < 0 ==> after == records)
            && (i >= 0 ==> |after| == |records| - 1
                           && multiset(after) + multiset{records[i]} == multiset(records)
                           && (forall k :: 0 <= k < i ==> after[k] == records[k])
                           && (forall k :: i <= k < |after| ==> after[k] == records[k + 1]))
  {
    var i := FindIndex(records, id);
    if i >= 0 {
      assert records == records[..i] + [records[i]] + records[i + 1..];
    }
  }

  /** A later record with the same id survives the deletion of the first. */
  lemma DeleteOnlyFirst(records: seq<HistoryRecord>, id: string, j: nat)
    requires FindIndex(records, id) < j < |records| && records[j].id == id
    ensures FirstWithId(RemoveFirst(records, id), id).Some?
  {
    var after := RemoveFirst(records, id);
    assert after[j - 1] == records[j];
  }

  /** A record just added is what `getRecord` finds for its id, unless the
      bound leaves no room at all. */
  lemma AddedRecordFound(records: seq<HistoryRecord>, r: HistoryRecord, max: Option<int>)
    requires max.None? || max.value >= 1
    ensures FirstWithId(AfterAdd(records, r, max), r.id) == Some(r)
  {
    var after := AfterAdd(records, r, max);
    if max.Some? {
      AddKeepsNewest(records, r, max.value);
    }
    assert after[0] == r;
  }

  function Timestamp(r: HistoryRecord): real {
    r.timestamp as real
  }

  /** `[...records].sort((a, b) => b.timestamp - a.timestamp)`. */
  function SortedByTime(records: seq<HistoryRecord>): (r: seq<HistoryRecord>)
    ensures Descending(r, Timestamp) && multiset(r) == multiset(records)
    ensures forall k :: WithKey(r, Timestamp, k) == WithKey(records, Timestamp, k)
  {
    SortByKeyFacts(records, Timestamp);
    SortByKey(records, Timestamp)
  }

  class History {
    /** `MAX_RECORDS`, with `None` for NaN. */
    const maxRecords: Option<int>
    var records: seq<HistoryRecord>
    var currentRecordId: Option<string>

    predicate Valid()
      reads this
    {
      Bounded(records, maxRecords)
    }

    /** A new store under the `VITE_MAX_HISTORY_RECORDS` setting `setting`
        (empty when unset). */
    constructor (setting: string)
      ensures maxRecords == MaxRecordsOf(setting)
      ensures records == [] && currentRecordId == None && Valid()
    {
      maxRecords := MaxRecordsOf(setting);
      records := [];
      currentRecordId := None;
    }

    /** `addRecord(draft)` with `generateId()` giving `generatedId` and
        `Date.now()` giving `now`; returns the stored record's id. */
    method AddRecord(draft: Draft, generatedId: string, now: int) returns (id: string)
      modifies this
      ensures records == AfterAdd(old(records), NewRecord(draft, generatedId, now), maxRecords)
      ensures id == NewRecord(draft, generatedId, now).id
      ensures old(Valid()) ==> Valid()
      ensures currentRecordId == old(currentRecordId)
    {
      var record := NewRecord(draft, generatedId, now);
      records := [record] + records;
      if maxRecords.Some? && |records| > maxRecords.value {
        records := Slice(records, maxRecords);
      }
      id := record.id;
    }

    /** `deleteRecord(id)`: the first record with the id is spliced out;
        the viewed id is cleared when it is that id and a record was
        removed. */
    method DeleteRecord(id: string)
      modifies this
      ensures records == RemoveFirst(old(records), id)
      ensures currentRecordId
              == if FindIndex(old(records), id) >= 0 && old(currentRecordId) == Some(id) then None
                 else old(currentRecordId)
      ensures old(Valid()) ==> Valid()
    {
      var rs := records;
      var i := 0;
      while i < |rs| && rs[i].id != id
        invariant 0 <= i <= |rs|
        invariant forall k :: 0 <= k < i ==> rs[k].id != id
      {
        i := i + 1;
      }
      if i < |rs| {
        records := rs[..i] + rs[i + 1..];
        if currentRecordId == Some(id) {
          currentRecordId := None;
        }
      }
    }

    /** `getRecord(id)`. */
    function GetRecord(id: string): (r: Option<HistoryRecord>)
      reads this
      ensures r.Some? ==> r.value in records && r.value.id == id
      ensures r.None? <==> forall k :: 0 <= k < |records| ==> records[k].id != id
      ensures r.Some? ==> exists i :: 0 <= i < |records| && records[i] == r.value
                                      && forall k :: 0 <= k < i ==> records[k].id != id
    {
      FirstWithId(records, id)
    }

    method SetCurrentRecord(id: Option<string>)
      modifies this
      ensures currentRecordId == id && records == old(records)
    {
      currentRecordId := id;
    }

    method ClearRecords()
      modifies this
      ensures records == [] && currentRecordId == None && Valid()
    {
      records := [];
      currentRecordId := None;
    }

    /** `setRecords(list)`: the first `MAX_RECORDS` entries, in order. */
    method SetRecords(list: seq<HistoryRecord>)
      modifies this
      ensures records == Slice(list, maxRecords)
      ensures Valid()
      ensures currentRecordId == old(currentRecordId)
    {
      records := Slice(list, maxRecords);
    }

    /** `currentRecord`: nothing while the viewed id is null or empty,
        otherwise the record `getRecord` finds (null and undefined are
        both `None`). */
    function CurrentRecord(): (r: Option<HistoryRecord>)
      reads this
      ensures currentRecordId.None? || currentRecordId.value == "" ==> r.None?
      ensures r.Some? ==> r.value in records && Some(r.value.id) == currentRecordId
      ensures currentRecordId.Some? && currentRecordId.value != "" ==> r == GetRecord(currentRecordId.value)
      ensures (currentRecordId.Some? && currentRecordId.value != ""
               && exists k :: 0 <= k < |records| && records[k].id == currentRecordId.value) ==> r.Some?
    {
      if currentRecordId.Some? && currentRecordId.value != "" then GetRecord(currentRecordId.value) else None
    }

    function HasRecords(): (b: bool)
      reads this
      ensures b <==> records != []
    {
      |records| > 0
    }

    function RecordsCount(): (n: nat)
      reads this
      ensures n == |records|
    {
      |records|
    }

    /** `sortedRecords`: a copy of the list, newest first; records with
        equal timestamps keep their order. */
    function SortedRecords(): (r: seq<HistoryRecord>)
      reads this
      ensures Descending(r, Timestamp) && multiset(r) == multiset(records)
      ensures forall k :: WithKey(r, Timestamp, k) == WithKey(records, Timestamp, k)
    {
      SortedByTime(records)
    }
  }
}
