/**
 * The five report tables of generate_report.py (lines 67-107): a column
 * subset of the normalized snapshot, filtered by a date window around today
 * or by status and date, each sorted by one date column, latest first.
 */
module Reports {
  import opened Wrappers
  import opened Frames

  /** The five tables, in the order the script builds them. */
  datatype Table = StartingSoon | EndingSoon | LateClose | EarlyClose | LateStart

  /** One row of `subset_df` (line 77), with its dates as day numbers; `None` is NaT. */
  datatype Entry = Entry(
    registration: Value, title: Value, start: Option<int>, end: Option<int>, status: Value, owner: Value)

  /** `pd.to_datetime(...).dt.date` on one cell: a day number, or NaT. */
  type DateParser = Value -> Option<int>

  /** The days either side of today in the "soon" windows (`timedelta(days=5)`, lines 73-74). */
  const WINDOW := 5

  /** The columns lines 68-69 and 77 look up, in the order they are looked up. */
  const NEEDED := ["start_date", "end_date", "registration_number", "title_en", "status", "owner_org"]

  function ToEntry(r: Row, parse: DateParser): Entry
  {
    Entry(Get(r, "registration_number"), Get(r, "title_en"), parse(Get(r, "start_date")),
          parse(Get(r, "end_date")), Get(r, "status"), Get(r, "owner_org"))
  }

  /**
   * Lines 68-77: the date columns parsed and the six report columns selected.
   * A missing column stops the script with a KeyError, reported here as the
   * first missing one in lookup order.
   */
  function Subset(df: Frame, parse: DateParser): (r: Result<seq<Entry>, Error>)
    ensures r.Err? <==> exists c :: c in NEEDED && c !in df.columns
    ensures r.Err? ==> r.error.MissingColumn? && r.error.name in NEEDED && r.error.name !in df.columns
    ensures r.Ok? ==> |r.value| == |df.rows|
    ensures r.Ok? ==> forall i :: 0 <= i < |df.rows| ==>
      && r.value[i].start == parse(Get(df.rows[i], "start_date"))
      && r.value[i].end == parse(Get(df.rows[i], "end_date"))
      && r.value[i].status == Get(df.rows[i], "status")
      && r.value[i].registration == Get(df.rows[i], "registration_number")
      && r.value[i].title == Get(df.rows[i], "title_en")
      && r.value[i].owner == Get(df.rows[i], "owner_org")
  {
    var missing := Exclude(NEEDED, set c | c in df.columns);
    if missing != [] then
      assert missing[0] in missing;
      Err(MissingColumn(missing[0]))
    else
      assert forall c :: c in NEEDED ==> c in df.columns;
      Ok(seq(|df.rows|, i requires 0 <= i < |df.rows| => ToEntry(df.rows[i], parse)))
  }

  /** `between(m5, p5)`: inclusive at both ends; NaT is never in the window. */
  predicate InWindow(d: Option<int>, today: int)
  {
    d.Some? && today - WINDOW <= d.value <= today + WINDOW
  }

  /** The filter of each table (lines 80, 86, 92, 98 and 104). A NaT date fails every comparison. */
  predicate Selected(t: Table, e: Entry, today: int)
  {
    match t
    case StartingSoon => InWindow(e.start, today)
    case EndingSoon => InWindow(e.end, today)
    case LateClose => e.status == Text("O") && e.end.Some? && e.end.value < today
    case EarlyClose => e.status == Text("C") && e.end.Some? && e.end.value > today
    case LateStart => e.status == Text("P") && e.start.Some? && e.start.value < today
  }

  /** The column each table is sorted by (lines 81, 87, 93, 99 and 105). */
  function SortKey(t: Table, e: Entry): Option<int>
  {
    match t
    case StartingSoon => e.start
    case LateStart => e.start
    case EndingSoon => e.end
    case LateClose => e.end
    case EarlyClose => e.end
  }

  /** Every row a table selects has a date in the column the table is sorted by. */
  lemma SelectedHasKey(t: Table, e: Entry, today: int)
    requires Selected(t, e, today)
    ensures SortKey(t, e).Some?
  {
  }

  /** The boolean mask of a table: the selected rows, in their order, each as often as it occurs. */
  function Select(t: Table, entries: seq<Entry>, today: int): (r: seq<Entry>)
    ensures forall e :: multiset(r)[e] == if Selected(t, e, today) then multiset(entries)[e] else 0
    ensures forall e :: e in r <==> e in entries && Selected(t, e, today)
  {
    if entries == [] then []
    else
      var rest := Select(t, entries[1..], today);
      assert entries == [entries[0]] + entries[1..];
      if Selected(t, entries[0], today) then [entries[0]] + rest else rest
  }

  /** `sort_values(ascending=False)` order: later dates first, NaT last. */
  predicate NoLater(a: Option<int>, b: Option<int>)
  {
    b.None? || (a.Some? && a.value >= b.value)
  }

  predicate SortedDesc(t: Table, s: seq<Entry>)
  {
    forall i, j :: 0 <= i < j < |s| ==> NoLater(SortKey(t, s[i]), SortKey(t, s[j]))
  }

  lemma SortedCons(t: Table, x: Entry, s: seq<Entry>)
    requires SortedDesc(t, s)
    requires forall k :: 0 <= k < |s| ==> NoLater(SortKey(t, x), SortKey(t, s[k]))
    ensures SortedDesc(t, [x] + s)
  {
  }

  lemma HeadNoLater(t: Table, s: seq<Entry>, y: Entry)
    requires SortedDesc(t, s) && |s| > 0 && y in s[1..]
    ensures NoLater(SortKey(t, s[0]), SortKey(t, y))
  {
    var m :| 0 <= m < |s[1..]| && s[1..][m] == y;
    assert s[m + 1] == y;
  }

  function Insert(t: Table, e: Entry, s: seq<Entry>): (r: seq<Entry>)
    requires SortedDesc(t, s)
    ensures SortedDesc(t, r)
    ensures multiset(r) == multiset(s) + multiset{e}
  {
    if s == [] || NoLater(SortKey(t, e), SortKey(t, s[0])) then
      SortedCons(t, e, s);
      [e] + s
    else
      var rest := Insert(t, e, s[1..]);
      assert s == [s[0]] + s[1..];
      assert forall k :: 0 <= k < |rest| ==> NoLater(SortKey(t, s[0]), SortKey(t, rest[k])) by {
        forall k | 0 <= k < |rest| ensures NoLater(SortKey(t, s[0]), SortKey(t, rest[k])) {
          assert rest[k] in multiset(rest);
          if rest[k] != e {
            assert rest[k] in s[1..];
            HeadNoLater(t, s, rest[k]);
          }
        }
      }
      SortedCons(t, s[0], rest);
      [s[0]] + rest
  }

  /**
   * The sort of each table: a permutation of its input, latest first. The
   * order of rows with equal dates is not specified by the source's sort,
   * and any order meeting this contract is one it may produce.
   */
  function Sort(t: Table, s: seq<Entry>): (r: seq<Entry>)
    ensures SortedDesc(t, r)
    ensures multiset(r) == multiset(s)
  {
    if s == [] then []
    else
      assert s == [s[0]] + s[1..];
      Insert(t, s[0], Sort(t, s[1..]))
  }

  /**
   * One report table: exactly the rows its rule selects, each as often as it
   * occurs in the subset, sorted by its date column with the latest first.
   */
  function Report(t: Table, entries: seq<Entry>, today: int): (r: seq<Entry>)
    ensures forall e :: multiset(r)[e] == if Selected(t, e, today) then multiset(entries)[e] else 0
    ensures forall e :: e in r <==> e in entries && Selected(t, e, today)
    ensures forall i, j :: 0 <= i < j < |r| ==>
      SortKey(t, r[i]).Some? && SortKey(t, r[j]).Some? && SortKey(t, r[j]).value <= SortKey(t, r[i]).value
  {
    var selected := Select(t, entries, today);
    var sorted := Sort(t, selected);
    assert forall k :: 0 <= k < |sorted| ==> SortKey(t, sorted[k]).Some? by {
      forall k | 0 <= k < |sorted| ensures SortKey(t, sorted[k]).Some? {
        assert sorted[k] in multiset(selected);
        SelectedHasKey(t, sorted[k], today);
      }
    }
    sorted
  }
}
