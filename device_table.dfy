/** The table `latest_by_device` keeps of the last record per device, and the
    pure facts about it that the flush loop relies on (wrapper.py lines 101-145). */
module DeviceTable {
  import opened PyValues
  import opened Identity

  /** `latest_by_device`: one record per device identity. */
  type Table = map<Key, Record>

  /** The key a record is stored under, or None when it is not stored: its
      identity is falsy (`if k:` fails) or unhashable (the dict assignment raises
      TypeError, which the surrounding `except` swallows). */
  function KeyOf(d: Record, keyField: string): Option<Key> {
    var v := DeviceKey(d, keyField);
    if Truthy(v) then HashKey(v) else None
  }

  /** Every entry is stored under its own record's identity. */
  ghost predicate Keyed(t: Table, keyField: string) {
    forall k :: k in t ==> KeyOf(t[k], keyField) == Some(k)
  }

  /** The ingest step of one input line (lines 114-121): a parsed object with a
      usable identity replaces whatever the table held under that identity; a
      line that is not an object, or an object without identity, changes nothing. */
  function Upsert(t: Table, parsed: Option<Record>, keyField: string): (r: Table)
    ensures parsed.None? ==> r == t
    ensures parsed.Some? && KeyOf(parsed.value, keyField).None? ==> r == t
    ensures parsed.Some? && KeyOf(parsed.value, keyField).Some? ==>
      var k := KeyOf(parsed.value, keyField).value;
      && r.Keys == t.Keys + {k}
      && r[k] == parsed.value
      && (forall k' :: k' in t && k' != k ==> r[k'] == t[k'])
  {
    match parsed
    case None => t
    case Some(d) =>
      match KeyOf(d, keyField)
      case None => t
      case Some(k) => t[k := d]
  }

  /** Ingesting keeps every entry under its own record's identity. */
  lemma UpsertKeepsKeyed(t: Table, parsed: Option<Record>, keyField: string)
    requires Keyed(t, keyField)
    ensures Keyed(Upsert(t, parsed, keyField), keyField)
  {
  }

  /** Two sightings with one identity before a flush leave one entry, the second
      record: the first is forgotten, not merged. */
  lemma UpsertOverwrites(t: Table, d1: Record, d2: Record, keyField: string)
    requires KeyOf(d1, keyField).Some? && KeyOf(d1, keyField) == KeyOf(d2, keyField)
    ensures Upsert(Upsert(t, Some(d1), keyField), Some(d2), keyField) == Upsert(t, Some(d2), keyField)
    ensures var k := KeyOf(d2, keyField).value;
      Upsert(Upsert(t, Some(d1), keyField), Some(d2), keyField)[k] == d2
  {
    var k := KeyOf(d2, keyField).value;
    assert t[k := d1][k := d2] == t[k := d2];
  }

  /** In a keyed table every record has an identity: a record without one is never
      stored, and so never flushed. */
  lemma KeyedRecordsHaveIdentity(t: Table, keyField: string, d: Record)
    requires Keyed(t, keyField)
    requires d in t.Values
    ensures KeyOf(d, keyField).Some?
  {
  }

  /** `batch` lists the table's records, each once: `list(latest_by_device.values())`
      in some order. */
  ghost predicate Enumerates(batch: seq<Record>, t: Table) {
    && |batch| == |t|
    && (forall i :: 0 <= i < |batch| ==> batch[i] in t.Values)
    && (forall k :: k in t ==> t[k] in batch)
    && (forall i, j :: 0 <= i < j < |batch| ==> batch[i] != batch[j])
  }

  /** Number of the write attempts numbered `lo` to `hi - 1` that succeed, when
      attempt `n` succeeds exactly if `ok(n)`. */
  function CountOk(ok: nat -> bool, lo: nat, hi: nat): (n: nat)
    requires lo <= hi
    ensures n <= hi - lo
    decreases hi - lo
  {
    if lo == hi then 0 else CountOk(ok, lo, hi - 1) + (if ok(hi - 1) then 1 else 0)
  }

  /** One more write attempt adds one to the count exactly when it succeeds. */
  lemma CountOkStep(ok: nat -> bool, lo: nat, hi: nat)
    requires lo <= hi
    ensures CountOk(ok, lo, hi + 1) == CountOk(ok, lo, hi) + (if ok(hi) then 1 else 0)
  {
  }

  /** Every write counts exactly when every write succeeds. */
  lemma {:induction false} CountOkAll(ok: nat -> bool, lo: nat, hi: nat)
    requires lo <= hi
    ensures CountOk(ok, lo, hi) == hi - lo <==> forall n :: lo <= n < hi ==> ok(n)
    decreases hi - lo
  {
    if lo < hi {
      CountOkAll(ok, lo, hi - 1);
    }
  }

  /** One failed write costs exactly one in the count and does not stop the
      others: with a single failure among `hi - lo` attempts the count is
      `hi - lo - 1`. */
  lemma {:induction false} CountOkOneFailure(ok: nat -> bool, lo: nat, hi: nat, bad: nat)
    requires lo <= bad < hi
    requires !ok(bad)
    requires forall n :: lo <= n < hi && n != bad ==> ok(n)
    ensures CountOk(ok, lo, hi) == hi - lo - 1
    decreases hi - lo
  {
    if hi - 1 == bad {
      CountOkAll(ok, lo, hi - 1);
    } else {
      CountOkOneFailure(ok, lo, hi - 1, bad);
    }
  }
}
