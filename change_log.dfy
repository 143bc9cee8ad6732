/**
 * The change-log step of generate_report.py. Every fetched row gets a
 * fingerprint (`hash`), the run's timestamp (`row_chng_datetime`) and its
 * composite identity (`composite_key`, moved to the first column). Then the
 * log file consultations_chng_log.csv is either created from the whole
 * snapshot or extended, in append mode, by the rows whose
 * (composite_key, hash) pair it does not hold yet.
 */
module ChangeLog {
  import opened Wrappers
  import opened Frames

  /**
   * The fingerprint: SHA-256 over pandas' hash of the labelled row. Taken as
   * an arbitrary fixed function of the labelled cells; nothing is assumed
   * about collisions.
   */
  type Hasher = Row -> string

  const KEY := "composite_key"
  const HASH := "hash"
  const STAMP := "row_chng_datetime"
  const OWNER := "owner_org"
  const REGISTRATION := "registration_number"

  /** The cells the fingerprint leaves out (`row.drop(['hash', 'datetime'], errors='ignore')`). */
  const UNHASHED: set<string> := {"hash", "datetime"}

  /** `astype(str)`: text unchanged, NaN as "nan". */
  function AsText(v: Value): string
  {
    match v
    case Text(s) => s
    case Null => "nan"
  }

  /** `owner_org.astype(str) + "-" + registration_number.astype(str)`. */
  function CompositeKey(owner: Value, registration: Value): Value
  {
    Text(AsText(owner) + "-" + AsText(registration))
  }

  /** The column order after the hash, timestamp and key columns are assigned and the key is moved first. */
  function NormalizedColumns(cols: seq<string>): seq<string>
  {
    [KEY] + Exclude(Extend(Extend(cols, HASH), STAMP), {KEY})
  }

  /**
   * The normalized column list in closed form: the key first, then the
   * fetched columns in their own relative order, then `hash` and
   * `row_chng_datetime` when the fetched frame did not already have them.
   * No column is lost and none is repeated.
   */
  lemma {:induction false} NormalizedColumnsShape(cols: seq<string>)
    requires Distinct(cols)
    ensures NormalizedColumns(cols) ==
      [KEY] + Exclude(cols, {KEY}) + (if HASH in cols then [] else [HASH]) + (if STAMP in cols then [] else [STAMP])
    ensures Distinct(NormalizedColumns(cols))
    ensures forall c :: c in NormalizedColumns(cols) <==> c in cols || c == KEY || c == HASH || c == STAMP
  {
    var withHash := Extend(cols, HASH);
    var withStamp := Extend(withHash, STAMP);
    var kept: seq<string> := Exclude(cols, {KEY});
    var newHash: seq<string> := if HASH in cols then [] else [HASH];
    var newStamp: seq<string> := if STAMP in cols then [] else [STAMP];
    assert [KEY] + (kept + newHash + newStamp) == [KEY] + kept + newHash + newStamp;
    ExcludeExtendedOther(cols, HASH, {KEY});
    ExcludeExtendedOther(withHash, STAMP, {KEY});
    assert STAMP in withHash <==> STAMP in cols;
    assert Exclude(withStamp, {KEY}) == kept + newHash + newStamp;
    ExtendDistinct(cols, HASH);
    ExtendDistinct(withHash, STAMP);
    ExcludeDistinct(withStamp, {KEY});
    DistinctCons(KEY, Exclude(withStamp, {KEY}));
  }

  /**
   * One fetched row after lines 22-32: the fingerprint is taken from the row
   * as fetched (before any column is added), every row gets the same
   * timestamp, the key joins owner and registration number with "-", the key
   * comes first, and every other field keeps its fetched value.
   */
  function NormalizeRow(r: Row, now: string, h: Hasher): (n: Row)
    ensures Names(n) == NormalizedColumns(Names(r))
    ensures Get(n, HASH) == Text(h(Drop(r, UNHASHED)))
    ensures Get(n, STAMP) == Text(now)
    ensures Get(n, KEY) == CompositeKey(Get(r, OWNER), Get(r, REGISTRATION))
    ensures forall m :: m != KEY && m != HASH && m != STAMP ==> Get(n, m) == Get(r, m)
  {
    var hashed := Put(r, HASH, Text(h(Drop(r, UNHASHED))));
    var stamped := Put(hashed, STAMP, Text(now));
    var keyed := Put(stamped, KEY, CompositeKey(Get(stamped, OWNER), Get(stamped, REGISTRATION)));
    ExcludeExtended(Names(stamped), KEY);
    ToFront(keyed, KEY)
  }

  /**
   * Lines 22-32 on the whole frame. Fails, as the KeyError on line 28 does,
   * when the fetched frame has no owner or no registration number column.
   */
  function Normalize(f: Frame, now: string, h: Hasher): (r: Result<Frame, Error>)
    ensures r.Err? <==> OWNER !in f.columns || REGISTRATION !in f.columns
    ensures r.Ok? ==> |r.value.rows| == |f.rows| && r.value.columns == NormalizedColumns(f.columns)
    ensures r.Ok? && WellFormed(f) ==> WellFormed(r.value)
    ensures r.Ok? ==> forall i :: 0 <= i < |f.rows| ==> r.value.rows[i] == NormalizeRow(f.rows[i], now, h)
  {
    if OWNER !in f.columns then Err(MissingColumn(OWNER))
    else if REGISTRATION !in f.columns then Err(MissingColumn(REGISTRATION))
    else
      var rows := seq(|f.rows|, i requires 0 <= i < |f.rows| => NormalizeRow(f.rows[i], now, h));
      var df := Frame(NormalizedColumns(f.columns), rows);
      assert Distinct(f.columns) ==> Distinct(df.columns) by {
        if Distinct(f.columns) {
          NormalizedColumnsShape(f.columns);
        }
      }
      Ok(df)
  }

  /** The persisted CSV: a header line and records, each a list of fields in the order it was written. */
  datatype LogFile = LogFile(header: seq<string>, records: seq<seq<Value>>)

  /** The merge key of lines 46-47. */
  datatype Pair = Pair(key: Value, hash: Value)

  function PairOf(r: Row): Pair
  {
    Pair(Get(r, KEY), Get(r, HASH))
  }

  function PairsOf(rows: seq<Row>): seq<Pair>
  {
    seq(|rows|, i requires 0 <= i < |rows| => PairOf(rows[i]))
  }

  /** `to_csv(index=False)` without the header: each row's values in the row's own column order. */
  function Records(rows: seq<Row>): seq<seq<Value>>
  {
    seq(|rows|, i requires 0 <= i < |rows| => Values(rows[i]))
  }

  /** The file written on line 39: the frame's header, then its rows. */
  function Created(df: Frame): LogFile
  {
    LogFile(df.columns, Records(df.rows))
  }

  /** The file after line 51: the same header and records, then the batch (written without a header). */
  function Appended(lf: LogFile, batch: seq<Row>): LogFile
  {
    LogFile(lf.header, lf.records + Records(batch))
  }

  /** A field read back by position: a record shorter than the header reads NaN for the missing fields. */
  function Field(rec: seq<Value>, i: nat): Value
  {
    if i < |rec| then rec[i] else Null
  }

  /** `read_csv` refuses a record with more fields than the header. */
  predicate Parses(lf: LogFile)
  {
    forall i :: 0 <= i < |lf.records| ==> |lf.records[i]| <= |lf.header|
  }

  /** `existing_df[['composite_key', 'hash']]` (lines 37 and 46): the pairs the log already holds, by header position. */
  function ReadPairs(lf: LogFile): (r: Result<seq<Pair>, Error>)
    ensures r.Ok? <==> Parses(lf) && KEY in lf.header && HASH in lf.header
    ensures r.Ok? ==> |r.value| == |lf.records|
  {
    if !Parses(lf) then Err(Unparseable)
    else if KEY !in lf.header then Err(MissingColumn(KEY))
    else if HASH !in lf.header then Err(MissingColumn(HASH))
    else
      Ok(PairsAt(lf.records, IndexOf(lf.header, KEY), IndexOf(lf.header, HASH)))
  }

  /** Each record's fields at positions `k` and `x`, as a pair. */
  function PairsAt(records: seq<seq<Value>>, k: nat, x: nat): seq<Pair>
  {
    seq(|records|, i requires 0 <= i < |records| => Pair(Field(records[i], k), Field(records[i], x)))
  }

  /** Records are read one by one: the pairs of a longer file extend those of its prefix. */
  lemma {:induction false} PairsAtConcat(a: seq<seq<Value>>, b: seq<seq<Value>>, k: nat, x: nat)
    ensures PairsAt(a + b, k, x) == PairsAt(a, k, x) + PairsAt(b, k, x)
  {
    var got, want := PairsAt(a + b, k, x), PairsAt(a, k, x) + PairsAt(b, k, x);
    forall i | 0 <= i < |a + b| ensures got[i] == want[i] {
      if i < |a| {
        assert (a + b)[i] == a[i];
      } else {
        assert (a + b)[i] == b[i - |a|];
      }
    }
  }

  /**
   * Lines 46-47: the rows whose (key, hash) pair is nowhere in `known`, in
   * their order. Equal rows inside the batch are all kept.
   */
  function NewRows(rows: seq<Row>, known: seq<Pair>): (batch: seq<Row>)
    ensures |batch| <= |rows|
    ensures forall x :: x in batch <==> x in rows && PairOf(x) !in known
    ensures forall x :: multiset(batch)[x] == if PairOf(x) in known then 0 else multiset(rows)[x]
  {
    if rows == [] then []
    else
      var rest := NewRows(rows[1..], known);
      assert rows == [rows[0]] + rows[1..];
      if PairOf(rows[0]) in known then rest else [rows[0]] + rest
  }

  /** Selection is row by row: it commutes with splitting the snapshot, so snapshot order is kept. */
  lemma {:induction false} NewRowsConcat(a: seq<Row>, b: seq<Row>, known: seq<Pair>)
    ensures NewRows(a + b, known) == NewRows(a, known) + NewRows(b, known)
  {
    if a == [] {
      assert a + b == b;
    } else {
      assert (a + b)[0] == a[0] && (a + b)[1..] == a[1..] + b;
      NewRowsConcat(a[1..], b, known);
    }
  }

  /** A snapshot none of whose pairs is known is appended whole, duplicates included. */
  lemma {:induction false} NewRowsAllUnknown(rows: seq<Row>, known: seq<Pair>)
    requires forall i :: 0 <= i < |rows| ==> PairOf(rows[i]) !in known
    ensures NewRows(rows, known) == rows
  {
    if rows != [] {
      NewRowsAllUnknown(rows[1..], known);
    }
  }

  /** A snapshot whose pairs are all known appends nothing. */
  lemma NewRowsAllKnown(rows: seq<Row>, known: seq<Pair>)
    requires forall i :: 0 <= i < |rows| ==> PairOf(rows[i]) in known
    ensures NewRows(rows, known) == []
  {
  }

  /** Records written from rows with the header's own column order read back as those rows' pairs. */
  lemma ReadRecords(header: seq<string>, rows: seq<Row>)
    requires KEY in header && HASH in header
    requires forall i :: 0 <= i < |rows| ==> Names(rows[i]) == header
    ensures forall i :: 0 <= i < |rows| ==>
      Pair(Field(Records(rows)[i], IndexOf(header, KEY)), Field(Records(rows)[i], IndexOf(header, HASH))) == PairOf(rows[i])
  {
    forall i | 0 <= i < |rows|
      ensures Pair(Field(Records(rows)[i], IndexOf(header, KEY)), Field(Records(rows)[i], IndexOf(header, HASH))) == PairOf(rows[i])
    {
      GetByPosition(rows[i], KEY);
      GetByPosition(rows[i], HASH);
    }
  }

  /** A freshly created log reads back exactly the snapshot's pairs. */
  lemma ReadCreated(df: Frame)
    requires WellFormed(df) && KEY in df.columns && HASH in df.columns
    ensures ReadPairs(Created(df)) == Ok(PairsOf(df.rows))
  {
    var lf := Created(df);
    assert Parses(lf) by {
      forall i | 0 <= i < |lf.records| ensures |lf.records[i]| <= |lf.header| {
        assert lf.records[i] == Values(df.rows[i]);
      }
    }
    ReadRecords(df.columns, df.rows);
    var got := ReadPairs(lf).value;
    forall i | 0 <= i < |got| ensures got[i] == PairsOf(df.rows)[i] {
    }
    assert got == PairsOf(df.rows);
  }

  lemma AppendedParses(lf: LogFile, batch: seq<Row>)
    requires Parses(lf)
    requires forall i :: 0 <= i < |batch| ==> Names(batch[i]) == lf.header
    ensures Parses(Appended(lf, batch))
  {
    var after := Appended(lf, batch);
    forall i | 0 <= i < |after.records| ensures |after.records[i]| <= |after.header| {
      if i >= |lf.records| {
        assert after.records[i] == Values(batch[i - |lf.records|]);
      }
    }
  }

  /** Appending rows in the header's column order adds exactly their pairs to what the log reads back. */
  lemma ReadAppended(lf: LogFile, batch: seq<Row>)
    requires ReadPairs(lf).Ok?
    requires forall i :: 0 <= i < |batch| ==> Names(batch[i]) == lf.header
    ensures ReadPairs(Appended(lf, batch)) == Ok(ReadPairs(lf).value + PairsOf(batch))
  {
    var after := Appended(lf, batch);
    var n := |lf.records|;
    AppendedParses(lf, batch);
    ReadRecords(lf.header, batch);
    var before, got := ReadPairs(lf).value, ReadPairs(after).value;
    var want := before + PairsOf(batch);
    forall i | 0 <= i < |got| ensures got[i] == want[i] {
      if i >= n {
        assert after.records[i] == Records(batch)[i - n];
      } else {
        assert after.records[i] == lf.records[i];
      }
    }
    assert got == want;
  }

  /** The outcome of one run: the normalized frame (which the reports read), the appended rows and `appended_count`. */
  datatype Outcome = Outcome(frame: Frame, appended: seq<Row>, count: nat)

  /** The log file consultations_chng_log.csv; `None` while it does not exist. */
  class LogStore {
    var file: Option<LogFile>

    constructor (existing: Option<LogFile>)
      ensures file == existing
    {
      file := existing;
    }

    /**
     * Lines 19-61. `snapshot` is what line 12 fetched (or, when `fromRemote`
     * is false, what line 15 read back from the log); `now` is the run's
     * timestamp.
     */
    method Run(snapshot: Frame, fromRemote: bool, now: string, h: Hasher) returns (r: Result<Outcome, Error>)
      requires WellFormed(snapshot)
      modifies this
      ensures Normalize(snapshot, now, h).Err? ==>
        r == Err(Normalize(snapshot, now, h).error) && file == old(file)
      ensures Normalize(snapshot, now, h).Ok? && !fromRemote ==>
        r == Ok(Outcome(Normalize(snapshot, now, h).value, [], 0)) && file == old(file)
      ensures Normalize(snapshot, now, h).Ok? && fromRemote && old(file).None? ==>
        var df := Normalize(snapshot, now, h).value;
        r == Ok(Outcome(df, [], 0)) && file == Some(Created(df))
      ensures Normalize(snapshot, now, h).Ok? && fromRemote && old(file).Some? && ReadPairs(old(file).value).Err? ==>
        r == Err(ReadPairs(old(file).value).error) && file == old(file)
      ensures Normalize(snapshot, now, h).Ok? && fromRemote && old(file).Some? && ReadPairs(old(file).value).Ok? ==>
        var df := Normalize(snapshot, now, h).value;
        var batch := NewRows(df.rows, ReadPairs(old(file).value).value);
        r == Ok(Outcome(df, batch, |batch|)) &&
        file == if batch == [] then old(file) else Some(Appended(old(file).value, batch))
      ensures old(file).Some? ==>
        file.Some? && file.value.header == old(file).value.header && old(file).value.records <= file.value.records
      ensures r.Ok? ==> r.value.count == |r.value.appended|
    {
      var normalized := Normalize(snapshot, now, h);
      if normalized.Err? {
        return Err(normalized.error);
      }
      var df := normalized.value;
      if !fromRemote {
        return Ok(Outcome(df, [], 0));
      }
      if file.None? {
        file := Some(Created(df));
        return Ok(Outcome(df, [], 0));
      }
      var existing := ReadPairs(file.value);
      if existing.Err? {
        return Err(existing.error);
      }
      var batch := NewRows(df.rows, existing.value);
      if batch != [] {
        file := Some(Appended(file.value, batch));
        r := Ok(Outcome(df, batch, |batch|));
      } else {
        r := Ok(Outcome(df, [], 0));
      }
    }
  }

  /** The pairs of a normalized snapshot do not depend on the run's timestamp. */
  lemma PairsIgnoreTimestamp(f: Frame, now1: string, now2: string, h: Hasher)
    requires Normalize(f, now1, h).Ok?
    ensures var a, b := Normalize(f, now1, h).value.rows, Normalize(f, now2, h).value.rows;
      |a| == |b| && forall i :: 0 <= i < |a| ==> PairOf(b[i]) == PairOf(a[i])
  {
    var a, b := Normalize(f, now1, h).value.rows, Normalize(f, now2, h).value.rows;
    forall i | 0 <= i < |a| ensures PairOf(b[i]) == PairOf(a[i]) {
      assert a[i] == NormalizeRow(f.rows[i], now1, h);
      assert b[i] == NormalizeRow(f.rows[i], now2, h);
    }
  }

  /** Rows whose pairs match, one for one, rows whose pairs are all known select nothing. */
  lemma NothingNew(rows: seq<Row>, again: seq<Row>, known: seq<Pair>)
    requires |again| == |rows|
    requires forall i :: 0 <= i < |rows| ==> PairOf(again[i]) == PairOf(rows[i])
    requires forall i :: 0 <= i < |rows| ==> PairOf(rows[i]) in known
    ensures NewRows(again, known) == []
  {
    NewRowsAllKnown(again, known);
  }

  /** After the log is created from a snapshot, every pair of the snapshot is in the log. */
  lemma KnownAfterCreate(df: Frame)
    requires WellFormed(df) && KEY in df.columns && HASH in df.columns
    ensures ReadPairs(Created(df)).Ok?
    ensures forall i :: 0 <= i < |df.rows| ==> PairOf(df.rows[i]) in ReadPairs(Created(df)).value
  {
    ReadCreated(df);
    assert forall i :: 0 <= i < |df.rows| ==> PairOf(df.rows[i]) == PairsOf(df.rows)[i];
  }

  /**
   * After the new rows of a snapshot are appended to a log whose header is
   * the snapshot's column list, every pair of the snapshot is in the log.
   */
  lemma KnownAfterAppend(lf: LogFile, df: Frame)
    requires WellFormed(df) && ReadPairs(lf).Ok? && lf.header == df.columns
    ensures ReadPairs(Appended(lf, NewRows(df.rows, ReadPairs(lf).value))).Ok?
    ensures forall i :: 0 <= i < |df.rows| ==>
      PairOf(df.rows[i]) in ReadPairs(Appended(lf, NewRows(df.rows, ReadPairs(lf).value))).value
  {
    var known := ReadPairs(lf).value;
    var batch := NewRows(df.rows, known);
    assert forall i :: 0 <= i < |batch| ==> batch[i] in df.rows;
    ReadAppended(lf, batch);
    var all := known + PairsOf(batch);
    forall i | 0 <= i < |df.rows| ensures PairOf(df.rows[i]) in all {
      var x := df.rows[i];
      if PairOf(x) !in known {
        assert x in batch;
        var j :| 0 <= j < |batch| && batch[j] == x;
        assert PairsOf(batch)[j] == PairOf(x);
      }
    }
  }

  /** Idempotence after creation: the snapshot that created the log selects nothing on the next remote run. */
  lemma IdempotentAfterCreate(snapshot: Frame, now1: string, now2: string, h: Hasher)
    requires WellFormed(snapshot) && Normalize(snapshot, now1, h).Ok?
    ensures var lf := Created(Normalize(snapshot, now1, h).value);
      ReadPairs(lf).Ok? && NewRows(Normalize(snapshot, now2, h).value.rows, ReadPairs(lf).value) == []
  {
    var df1, df2 := Normalize(snapshot, now1, h).value, Normalize(snapshot, now2, h).value;
    NormalizedColumnsShape(snapshot.columns);
    KnownAfterCreate(df1);
    PairsIgnoreTimestamp(snapshot, now1, now2, h);
    NothingNew(df1.rows, df2.rows, ReadPairs(Created(df1)).value);
  }

  /**
   * Idempotence after an append: once the new rows of a snapshot are appended
   * to a log whose header is the snapshot's normalized column list, the same
   * snapshot selects nothing on the next remote run.
   */
  lemma IdempotentAfterAppend(lf: LogFile, snapshot: Frame, now1: string, now2: string, h: Hasher)
    requires WellFormed(snapshot) && Normalize(snapshot, now1, h).Ok?
    requires ReadPairs(lf).Ok? && lf.header == Normalize(snapshot, now1, h).value.columns
    ensures var after := Appended(lf, NewRows(Normalize(snapshot, now1, h).value.rows, ReadPairs(lf).value));
      ReadPairs(after).Ok? && NewRows(Normalize(snapshot, now2, h).value.rows, ReadPairs(after).value) == []
  {
    var df1, df2 := Normalize(snapshot, now1, h).value, Normalize(snapshot, now2, h).value;
    KnownAfterAppend(lf, df1);
    PairsIgnoreTimestamp(snapshot, now1, now2, h);
    var after := Appended(lf, NewRows(df1.rows, ReadPairs(lf).value));
    NothingNew(df1.rows, df2.rows, ReadPairs(after).value);
  }

  /** A name found at position `i` and not before it is found by `IndexOf` at `i`. */
  lemma {:induction false} IndexAt(ns: seq<string>, i: nat)
    requires i < |ns| && forall k :: 0 <= k < i ==> ns[k] != ns[i]
    ensures IndexOf(ns, ns[i]) == i
  {
  }

  /** A fetched row with owner and registration columns and none of the three columns normalization adds. */
  predicate PlainRow(cols: seq<string>, r: Row)
  {
    && Distinct(cols) && Names(r) == cols && OWNER in cols && REGISTRATION in cols
    && KEY !in cols && HASH !in cols && STAMP !in cols
  }

  /** A plain row, and a further column name that is new to it and is not one of the three added ones. */
  predicate Widened(cols: seq<string>, r: Row, extra: string)
  {
    PlainRow(cols, r) && extra !in cols && extra != KEY && extra != HASH && extra != STAMP
  }

  /** The same row with one more such column at the end. */
  lemma {:induction false} PlainRowAppended(cols: seq<string>, r: Row, extra: string, v: Value)
    requires Widened(cols, r, extra)
    ensures PlainRow(cols + [extra], r + [Cell(extra, v)])
    ensures Get(r + [Cell(extra, v)], OWNER) == Get(r, OWNER)
    ensures Get(r + [Cell(extra, v)], REGISTRATION) == Get(r, REGISTRATION)
  {
    NamesAppended(r, Cell(extra, v));
    GetAppended(r, [Cell(extra, v)], OWNER);
    GetAppended(r, [Cell(extra, v)], REGISTRATION);
  }

  /** Columns that hold none of the three added names keep their order between the key and the fingerprint. */
  lemma {:induction false} PlainColumns(cols: seq<string>)
    requires Distinct(cols) && KEY !in cols && HASH !in cols && STAMP !in cols
    ensures NormalizedColumns(cols) == [KEY] + cols + [HASH] + [STAMP]
  {
    NormalizedColumnsShape(cols);
    ExcludeNothing(cols, {KEY});
  }

  /** A one-row snapshot without the three added columns normalizes to its columns between the key and the fingerprint. */
  lemma {:induction false} NormalizeSingle(cols: seq<string>, r: Row, now: string, h: Hasher)
    requires PlainRow(cols, r)
    ensures Normalize(Frame(cols, [r]), now, h).Ok?
    ensures Normalize(Frame(cols, [r]), now, h).value.columns == [KEY] + cols + [HASH] + [STAMP]
    ensures Normalize(Frame(cols, [r]), now, h).value.rows == [NormalizeRow(r, now, h)]
  {
    PlainColumns(cols);
    var rows := Normalize(Frame(cols, [r]), now, h).value.rows;
    assert |rows| == 1 && rows[0] == NormalizeRow(r, now, h);
  }

  /**
   * Appending one row whose record is no longer than the header adds the pair
   * found at the header's key and hash positions, whatever the row's own
   * column order.
   */
  lemma {:induction false} ReadAppendedOne(lf: LogFile, r: Row)
    requires ReadPairs(lf).Ok? && |r| <= |lf.header|
    ensures ReadPairs(Appended(lf, [r])).Ok?
    ensures ReadPairs(Appended(lf, [r])).value == ReadPairs(lf).value
      + [Pair(Field(Values(r), IndexOf(lf.header, KEY)), Field(Values(r), IndexOf(lf.header, HASH)))]
  {
    AppendedOneParses(lf, r);
    var k, x := IndexOf(lf.header, KEY), IndexOf(lf.header, HASH);
    PairsAtConcat(lf.records, [Values(r)], k, x);
  }

  lemma {:induction false} AppendedOneParses(lf: LogFile, r: Row)
    requires Parses(lf) && |r| <= |lf.header|
    ensures Appended(lf, [r]).records == lf.records + [Values(r)]
    ensures Parses(Appended(lf, [r]))
  {
    var after := Appended(lf, [r]);
    assert Records([r]) == [Values(r)];
    forall i | 0 <= i < |after.records| ensures |after.records[i]| <= |after.header| {
      if i < |lf.records| {
        assert after.records[i] == lf.records[i];
      }
    }
  }

  /** Where the key, the fingerprint and the timestamp sit in a header of the normalized shape. */
  lemma {:induction false} ShapeIndices(mid: seq<string>)
    requires KEY !in mid && HASH !in mid && STAMP !in mid
    ensures IndexOf([KEY] + mid + [HASH] + [STAMP], KEY) == 0
    ensures IndexOf([KEY] + mid + [HASH] + [STAMP], HASH) == |mid| + 1
    ensures IndexOf([KEY] + mid + [HASH] + [STAMP], STAMP) == |mid| + 2
  {
    var ns := [KEY] + mid + [HASH] + [STAMP];
    assert ns[0] == KEY && ns[|mid| + 1] == HASH && ns[|mid| + 2] == STAMP;
    forall k | 1 <= k <= |mid| ensures ns[k] == mid[k - 1] {
    }
    IndexAt(ns, 0);
    IndexAt(ns, |mid| + 1);
    IndexAt(ns, |mid| + 2);
  }

  lemma {:induction false} NamesAppended(r: Row, c: Cell)
    ensures Names(r + [c]) == Names(r) + [c.name]
  {
    assert forall i :: 0 <= i < |r| ==> (r + [c])[i] == r[i];
  }

  /** Cells added after a name's first cell do not change what the name reads. */
  lemma {:induction false} GetAppended(r: Row, more: Row, n: string)
    requires n in Names(r)
    ensures Get(r + more, n) == Get(r, n)
  {
    assert (r + more)[0] == r[0];
    if r[0].name != n {
      assert (r + more)[1..] == r[1..] + more;
      assert Names(r)[1..] == Names(r[1..]);
      GetAppended(r[1..], more, n);
    }
  }

  /** A log created from a one-row frame reads back that row's pair. */
  lemma {:induction false} ReadCreatedOne(df: Frame, row: Row)
    requires WellFormed(df) && KEY in df.columns && HASH in df.columns && df.rows == [row]
    ensures ReadPairs(Created(df)) == Ok([PairOf(row)])
  {
    ReadCreated(df);
    assert PairsOf([row]) == [PairOf(row)];
  }

  /** A log created from a one-row snapshot reads back that row's key and fingerprint. */
  lemma {:induction false} CreatedOne(cols: seq<string>, r: Row, now: string, h: Hasher)
    requires PlainRow(cols, r)
    ensures Normalize(Frame(cols, [r]), now, h).Ok?
    ensures Created(Normalize(Frame(cols, [r]), now, h).value).header == [KEY] + cols + [HASH] + [STAMP]
    ensures ReadPairs(Created(Normalize(Frame(cols, [r]), now, h).value))
      == Ok([Pair(CompositeKey(Get(r, OWNER), Get(r, REGISTRATION)), Text(h(Drop(r, UNHASHED))))])
  {
    NormalizeSingle(cols, r, now, h);
    ReadCreatedOne(Normalize(Frame(cols, [r]), now, h).value, NormalizeRow(r, now, h));
  }

  /**
   * The second run of the drift scenario: a row normalized without `extra` is
   * appended under the wide header, one field short, so the header's `hash`
   * position reads the row's timestamp.
   */
  lemma {:induction false} AppendedShort(lf: LogFile, cols: seq<string>, extra: string, row: Row)
    requires KEY !in cols && HASH !in cols && STAMP !in cols
    requires extra != KEY && extra != HASH && extra != STAMP
    requires ReadPairs(lf).Ok? && lf.header == [KEY] + (cols + [extra]) + [HASH] + [STAMP]
    requires Names(row) == [KEY] + cols + [HASH] + [STAMP]
    ensures ReadPairs(Appended(lf, [row])).Ok?
    ensures ReadPairs(Appended(lf, [row])).value == ReadPairs(lf).value + [Pair(Get(row, KEY), Get(row, STAMP))]
  {
    var rec := Values(row);
    var p := |cols| + 2;
    assert rec[0] == Get(row, KEY) && rec[p] == Get(row, STAMP) by {
      ShapeIndices(cols);
      GetByPosition(row, STAMP);
      GetByPosition(row, KEY);
    }
    assert IndexOf(lf.header, KEY) == 0 && IndexOf(lf.header, HASH) == p by {
      ShapeIndices(cols + [extra]);
    }
    assert |row| == |Names(row)| < |lf.header|;
    ReadAppendedOne(lf, row);
  }

  /** The first run of the drift scenario: the log is created from the wide snapshot. */
  lemma {:induction false} CreatedWide(cols: seq<string>, r: Row, extra: string, v: Value, now: string, h: Hasher)
    requires Widened(cols, r, extra)
    ensures Normalize(Frame(cols + [extra], [r + [Cell(extra, v)]]), now, h).Ok?
    ensures Created(Normalize(Frame(cols + [extra], [r + [Cell(extra, v)]]), now, h).value).header
      == [KEY] + (cols + [extra]) + [HASH] + [STAMP]
    ensures ReadPairs(Created(Normalize(Frame(cols + [extra], [r + [Cell(extra, v)]]), now, h).value))
      == Ok([Pair(CompositeKey(Get(r, OWNER), Get(r, REGISTRATION)), Text(h(Drop(r + [Cell(extra, v)], UNHASHED))))])
  {
    PlainRowAppended(cols, r, extra, v);
    CreatedOne(cols + [extra], r + [Cell(extra, v)], now, h);
  }

  /**
   * A fetched row without the three added columns normalizes to the narrow
   * layout, with the run's timestamp and its fingerprint in their columns.
   */
  lemma {:induction false} NarrowRow(cols: seq<string>, r: Row, now: string, h: Hasher)
    requires PlainRow(cols, r)
    ensures Names(NormalizeRow(r, now, h)) == [KEY] + cols + [HASH] + [STAMP]
    ensures PairOf(NormalizeRow(r, now, h)) == Pair(CompositeKey(Get(r, OWNER), Get(r, REGISTRATION)), Text(h(Drop(r, UNHASHED))))
    ensures Get(NormalizeRow(r, now, h), STAMP) == Text(now)
  {
    PlainColumns(cols);
  }

  /**
   * Why idempotence needs the header to match. Take a log written in a wide
   * layout, with one more column `extra` before the fingerprint (as
   * `CreatedWide` produces), and a row in the narrow layout that upstream's
   * dropping of `extra` gives (as `NarrowRow` states), whose pair the log
   * does not hold and whose timestamp differs from its fingerprint. The row
   * is appended one field short, so the header's `hash` position reads its
   * timestamp, and a row with the same key and fingerprint (the same
   * snapshot on the next run) is selected again, and on every run after.
   */
  lemma {:induction false} DroppedColumnDefeatsIdempotence(lf: LogFile, cols: seq<string>, extra: string, row: Row, again: Row)
    requires KEY !in cols && HASH !in cols && STAMP !in cols && extra != KEY && extra != HASH && extra != STAMP
    requires ReadPairs(lf).Ok? && lf.header == [KEY] + (cols + [extra]) + [HASH] + [STAMP]
    requires Names(row) == [KEY] + cols + [HASH] + [STAMP]
    requires PairOf(row) !in ReadPairs(lf).value && Get(row, STAMP) != Get(row, HASH)
    requires PairOf(again) == PairOf(row)
    ensures NewRows([row], ReadPairs(lf).value) == [row]
    ensures ReadPairs(Appended(lf, [row])).Ok?
    ensures ReadPairs(Appended(lf, [row])).value == ReadPairs(lf).value + [Pair(Get(row, KEY), Get(row, STAMP))]
    ensures NewRows([again], ReadPairs(Appended(lf, [row])).value) == [again]
  {
    NewRowsAllUnknown([row], ReadPairs(lf).value);
    AppendedShort(lf, cols, extra, row);
    NewRowsAllUnknown([again], ReadPairs(Appended(lf, [row])).value);
  }

  /**
   * Idempotence on the log store: two remote runs in a row on the same
   * snapshot, with the log absent or already in the snapshot's column layout,
   * append nothing the second time.
   */
  method RunTwice(store: LogStore, snapshot: Frame, now1: string, now2: string, h: Hasher)
      returns (first: Result<Outcome, Error>, second: Result<Outcome, Error>)
    requires WellFormed(snapshot) && Normalize(snapshot, now1, h).Ok?
    requires store.file.Some? ==>
      ReadPairs(store.file.value).Ok? && store.file.value.header == Normalize(snapshot, now1, h).value.columns
    modifies store
    ensures first.Ok? && second.Ok?
    ensures second.value.appended == [] && second.value.count == 0
  {
    if store.file.None? {
      IdempotentAfterCreate(snapshot, now1, now2, h);
    } else {
      var lf := store.file.value;
      IdempotentAfterAppend(lf, snapshot, now1, now2, h);
      var batch := NewRows(Normalize(snapshot, now1, h).value.rows, ReadPairs(lf).value);
      if batch == [] {
        assert Appended(lf, batch) == lf;
      }
    }
    first := store.Run(snapshot, true, now1, h);
    second := store.Run(snapshot, true, now2, h);
  }
}
