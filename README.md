# Consultations Tracker, modelled in Dafny

The Consultations Tracker fetches the Government of Canada's open-data list
of consultations and produces three things from it:

- a change log, `consultations_chng_log.csv`, that grows by the rows that
  are new or have changed since earlier runs;
- five report tables about consultations that start or end soon, or whose
  status contradicts their dates;
- the list of sites an uptime monitor watches.

This project models the logic of those three in Dafny and proves what each
one promises.

- `frames.dfy`: the part of a pandas DataFrame the scripts rely on.
  - Rows are lists of named cells, and a frame is a list of column names
    plus rows.
  - It models column assignment (`df[n] = v`), `row.drop(...)`, moving a
    column to the front, and reading a value back by its header position.
  - `Wrappers` holds `Option` and `Result`.
- `change_log.dfy`: the change-log step of `generate_report.py`.
  - Each fetched row gets a fingerprint (`hash`), the run's timestamp
    (`row_chng_datetime`) and its identity (`composite_key`, which is
    `owner_org-registration_number` and becomes the first column).
  - The log file is a header plus positional records, as a CSV is.
  - `LogStore` is a class whose `file` field is `None` while the log does
    not exist. Its `Run` method either creates the log from the whole
    snapshot, or appends the rows whose `(composite_key, hash)` pair the log
    does not hold yet.
- `reports.dfy`: the five report tables. Each is a filter over date windows
  (today ± 5 days) or over a status/date contradiction, sorted by its date
  column with the latest first.
- `monitor.dfy`: `get-consultations.py`, which builds the monitor's `sites`
  list.
  - Rows with status `C` are dropped.
  - Each URL loses every `:` and newline, and becomes both the site's
    `name` and its `url`.
  - Rows without a URL are dropped.
  - The list replaces the `sites` entry of the configuration.

Inputs that come from outside the scripts are parameters:

- the fetched snapshot, and whether it came from the network (`fromRemote`);
- the run's timestamp, as a string;
- today's date, as a day number;
- the fingerprint function, `Hasher`, which is SHA-256 over pandas' row
  hash;
- the date parser, which maps a cell to a day number, or to `None` for
  NaT.

What the scripts do not do, and so the model does not either:

- There are no tombstone (`DELETED`) rows and no deleted-only view. The
  code never detects vanished identities.
- The code does not reindex rows to a fixed log schema. Line 51 writes
  each appended row in the snapshot's own column order, under whatever
  header the log already has.
- The code does not collapse duplicate `(composite_key, hash)` pairs
  within one batch. `NewRows` keeps every occurrence.
- When the log is created, `appended_count` is 0, even though the whole
  snapshot was written.
- The fingerprint excludes only cells named `hash` and `datetime`. It is
  taken before `row_chng_datetime` and `composite_key` are added, so it
  depends only on the fetched fields.

Idempotence holds when the log's header matches the layout of the
normalized snapshot. `IdempotentAfterCreate`, `IdempotentAfterAppend` and
`LogStore`-level `RunTwice` prove it. Because there is no reindexing, it can
fail once upstream drops a column. `CreatedWide`, `NarrowRow` and
`DroppedColumnDefeatsIdempotence` show how:

1. The log was written with one more column before `hash`.
2. A row normalized without that column is appended one field short.
3. When the log is read back, the header's `hash` position holds that row's
   timestamp.
4. The same snapshot is therefore selected again on every later run.

## Model

| member | source | states |
|---|---|---|
| Frames.Put | generate_report.py:22-28 | assigning column `n` sets its value, keeps an existing column in place or adds a new one last, and leaves every other column's value unchanged |
| Frames.Drop | generate_report.py:22 | `row.drop(out, errors='ignore')` keeps exactly the cells whose names are not in `out`, in order, with their values; dropped names read as NaN |
| Frames.ToFront | generate_report.py:31-32 | the moved column comes first, the others follow in their original relative order, and every column keeps its value |
| Frames.GetByPosition | generate_report.py:37 | reading a written record at the header position of a name gives the value the row holds under that name |
| Frames.IndexOf | generate_report.py:46 | the position found holds the name, and no earlier position does |
| ChangeLog.NormalizedColumnsShape | generate_report.py:22-32 | after normalization the columns are the key, then the fetched columns in their order, then `hash` and `row_chng_datetime` if new; no column is lost or repeated |
| ChangeLog.NormalizeRow | generate_report.py:22-32 | the fingerprint is the hasher applied to the fetched fields minus `hash`/`datetime`; the timestamp is the run's; the key is owner + "-" + registration number (NaN as "nan"); every other field is unchanged |
| ChangeLog.Normalize | generate_report.py:22-32 | fails exactly when `owner_org` or `registration_number` is missing (the KeyError of line 28); otherwise keeps the row count, gives the normalized column list, keeps the frame well formed, and makes every row the normalized fetched row at the same position, so all rows carry the one run timestamp and their owner-registration key |
| ChangeLog.PairsIgnoreTimestamp | generate_report.py:22-25 | the (key, hash) pairs of a normalized snapshot do not depend on the run's timestamp |
| ChangeLog.ReadPairs | generate_report.py:37 | reading the log's pairs succeeds exactly when every record fits the header and the header has `composite_key` and `hash`; it yields one pair per record |
| ChangeLog.PairsAtConcat | generate_report.py:37 | records are read one by one: the pairs read from a file extended by more records are the old file's pairs followed by the new records' pairs |
| ChangeLog.NewRows | generate_report.py:46-47 | a row is selected if and only if its (key, hash) pair is nowhere in the log; each selected row is kept as often as it occurs in the snapshot |
| ChangeLog.NewRowsConcat | generate_report.py:46-47 | selection is row by row, so the snapshot's order is kept |
| ChangeLog.NewRowsAllUnknown | generate_report.py:46-47 | a snapshot none of whose pairs is known is selected whole, duplicates included |
| ChangeLog.NewRowsAllKnown | generate_report.py:46-47 | a snapshot whose pairs are all known selects nothing |
| ChangeLog.ReadRecords | generate_report.py:39 | records written in the header's own column order read back as their rows' pairs |
| ChangeLog.ReadCreated | generate_report.py:38-39 | a freshly created log reads back exactly the snapshot's pairs, in order |
| ChangeLog.AppendedParses | generate_report.py:51 | appending rows laid out like the header keeps the file parseable |
| ChangeLog.ReadAppended | generate_report.py:50-51 | appending rows in the header's layout leaves the old pairs and adds exactly the appended rows' pairs after them |
| ChangeLog.LogStore.constructor | generate_report.py:34-37 | the store starts with the given file, or with none |
| ChangeLog.LogStore.Run | generate_report.py:34-61 | on a normalization or read error, fails and leaves the file alone. When the fetch fell back (`fromRemote` false), leaves the file alone and reports 0. When there is no file, creates it from the normalized snapshot and reports 0. Otherwise appends exactly `NewRows`, writing only if there are any, and reports their number. The header is never rewritten and earlier records are kept |
| ChangeLog.NothingNew | generate_report.py:46-47 | rows whose pairs match one for one rows whose pairs are all known select nothing |
| ChangeLog.KnownAfterCreate | generate_report.py:38-39 | after creation every snapshot pair is in the log |
| ChangeLog.KnownAfterAppend | generate_report.py:46-51 | after the new rows are appended to a log in the snapshot's layout, every snapshot pair is in the log |
| ChangeLog.IdempotentAfterCreate | generate_report.py:38-47 | the snapshot that created the log selects nothing on the next run, whatever its timestamp |
| ChangeLog.IdempotentAfterAppend | generate_report.py:46-58 | after an append to a log in the snapshot's layout, the same snapshot selects nothing on the next run |
| ChangeLog.RunTwice | generate_report.py:34-58 | two remote runs on the same snapshot, with the log absent or already in its layout, both succeed and the second appends nothing and reports 0 |
| ChangeLog.PlainRowAppended | generate_report.py:28 | adding an unrelated column to a fetched row keeps its owner and registration number |
| ChangeLog.PlainColumns | generate_report.py:31-32 | fetched columns without the three added names normalize to key, columns, `hash`, `row_chng_datetime` |
| ChangeLog.NormalizeSingle | generate_report.py:22-32 | a one-row snapshot normalizes successfully to that layout and to its normalized row |
| ChangeLog.ShapeIndices | generate_report.py:46 | in that layout the key is at position 0, `hash` after the fetched columns, and the timestamp last |
| ChangeLog.ReadAppendedOne | generate_report.py:51 | appending one row no longer than the header adds the fields at the header's key and hash positions, whatever the row's own column order |
| ChangeLog.CreatedOne | generate_report.py:38-39 | a log created from a one-row snapshot reads back that row's key and fingerprint |
| ChangeLog.CreatedWide | generate_report.py:38-39 | a log created from a snapshot with one more column has the wider header and reads back the key and that row's fingerprint |
| ChangeLog.NarrowRow | generate_report.py:22-32 | a row fetched without that column normalizes to the narrow layout, with its key, its fingerprint and the run's timestamp |
| ChangeLog.AppendedShort | generate_report.py:51 | a narrow row appended under the wide header reads back with its timestamp in the `hash` position |
| ChangeLog.DroppedColumnDefeatsIdempotence | generate_report.py:46-51 | for such a narrow row: it is selected and appended, and the same row on the next run is selected again |
| Reports.Subset | generate_report.py:67-77 | fails exactly when one of the six columns read is missing, naming a missing one; otherwise one entry per row with its parsed dates, status, registration number, title and owner |
| Reports.Select | generate_report.py:79-104 | a table holds exactly the rows its rule selects, each as often as in the subset |
| Reports.SelectedHasKey | generate_report.py:79-105 | every selected row has a date in its table's sort column |
| Reports.Insert | generate_report.py:81 | inserting into a latest-first list keeps it latest first and adds exactly the element |
| Reports.Sort | generate_report.py:81 | the sort gives a permutation of its input, latest first, with NaT last |
| Reports.Report | generate_report.py:79-105 | each of the five tables holds exactly the rows meeting its rule (start or end date within today ± 5 inclusive; `O` and end before today; `C` and end after today; `P` and start before today), with their multiplicities, sorted by its date column with the latest first |
| Monitor.Strip | get-consultations.py:24 | `str.replace(c, '')` leaves no `c`, keeps every other character's count, and never lengthens |
| Monitor.StripConcat | get-consultations.py:24 | removal works character by character, so stripping a concatenation strips each part and the kept characters stay in order |
| Monitor.StripAbsent | get-consultations.py:24-25 | removing a character that does not occur changes nothing |
| Monitor.CleanUrlConcat | get-consultations.py:24-25 | cleaning a concatenation cleans each part, so the URL keeps its character order |
| Monitor.CleanUrlChar | get-consultations.py:24-25 | a single character survives cleaning exactly when it is neither `:` nor a newline; with `CleanUrlConcat` this fixes the cleaned URL as the page URL with those characters deleted |
| Monitor.CleanUrlSpec | get-consultations.py:24-25 | a cleaned URL has no `:` and no newline, keeps every other character's count, and cleaning it again changes nothing |
| Monitor.SiteOf | get-consultations.py:18-29 | a row gives one site if and only if its status is not `C` and its URL is present; that site's name and url are both the cleaned URL |
| Monitor.SitesOf | get-consultations.py:18-29 | the site list is no longer than the input, and every site's name equals its url, which has no `:` and no newline |
| Monitor.SitesOfConcat | get-consultations.py:18-29 | the list is built row by row, so the input order is kept |
| Monitor.SitesOfOrigin | get-consultations.py:18-29 | every site comes from a row that is not closed and has a URL, as that row's cleaned URL |
| Monitor.SitesOfComplete | get-consultations.py:18-29 | every row that is not closed and has a URL contributes its site |
| Monitor.Refresh | get-consultations.py:17-32 | fails exactly when `status`, `title_en` or `profile_page_en` is missing; otherwise `sites` becomes the site list and every other top-level entry is kept unchanged |

## Left out

- Network fetch and the `URLError` fallback (`generate_report.py` lines 11-16, `get-consultations.py` line 15): the snapshot and the `fromRemote` flag are parameters.
- ChangeLog.NormalizeRow: the fingerprint is an arbitrary `Hasher` over the cells left after the drop. SHA-256, `hash_pandas_object` and `str()` of a Series cannot be reasoned about, and no injectivity is assumed.
- `datetime.now()`, `datetime.today()` and `pd.to_datetime`: the timestamp, today's day number and a date parser are parameters. A date string `to_datetime` would refuse is not modelled as an error; the parser maps it to NaT.
- Reports.Sort: the order of rows with equal dates is not fixed, because `sort_values` uses an unstable sort. Only "latest first, a permutation of the selection" is stated.
- CSV, HTML and YAML reading and writing, `to_html`, the HTML templates and the console messages: these are rendering and I/O. The log is modelled as its header and records.
- Column type inference by `read_csv` is not modelled: cell values are text or NaN. In particular, one NaN in an integer column such as `registration_number` makes pandas read the whole column as floats, so "123" becomes "123.0". That changes every row's `composite_key` and `hash`, and the whole snapshot is appended again. This is a second way idempotence can fail that the model cannot show. A URL column holding no strings, which the `.str` accessor refuses, is likewise not modelled.
- Monitor.Refresh: the YAML file's own shape is not modelled, for example an empty file that loads as `None`. Nor is key order on writing: the configuration is a map whose other entries are kept opaque.
- The fallback path's re-hash of the log's rows drops `datetime` rather than `row_chng_datetime`. That run never writes to the log, so `Run` leaves the file untouched and the quirk has no effect here.
- Concurrent runs against the same log file: the scripts run one at a time.
