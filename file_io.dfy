/**
 * The file layer of the messenger (app/modules/file_Io.py): loading the
 * target profiles from an uploaded sheet, and the results log, a CSV file
 * that every send attempt appends to and that is read back both for the
 * results view and for the set of profiles already messaged.
 *
 * Spreadsheet and CSV parsing are outside the model: a sheet is given as
 * its columns of cells, and the log as its sequence of CSV records.
 */
module FileIo {
  import opened Wrappers
  import opened Text
  import opened Seqs

  // ---------------------------------------------------------------------
  // Profile source
  // ---------------------------------------------------------------------

  const UrlColumn := "URL"
  const WebPrefix := "https://www.instagram.com/"
  const BarePrefix := "instagram.com/"

  /** A cell of a column: `None` for a missing (NaN) or non-text cell. */
  type Cell = Option<string>

  /** An uploaded workbook, or one that the spreadsheet reader rejects. */
  datatype Sheet = Unreadable(reason: string) | Workbook(columns: map<string, seq<Cell>>)

  /** Why `load_profiles` raised. */
  datatype LoadError = ReadFailed(reason: string) | MissingUrlColumn | NoValidUrls

  /** The text of the wrapping exception that `load_profiles` raises. */
  function LoadErrorText(e: LoadError): (t: string)
    ensures StartsWith(t, "Error loading profiles: ")
  {
    "Error loading profiles: " +
    match e
    case ReadFailed(reason) => reason
    case MissingUrlColumn => "Excel file must contain a 'URL' column"
    case NoValidUrls => "No valid Instagram profile URLs found in the file"
  }

  /** The accepted profile address forms. */
  predicate IsProfileUrl(url: string)
  {
    StartsWith(url, WebPrefix) || StartsWith(url, BarePrefix)
  }

  /** `column.str.strip().dropna()`: every text cell stripped, missing cells dropped, order kept. */
  function CleanColumn(column: seq<Cell>): seq<string>
  {
    if column == [] then []
    else
      var rest := CleanColumn(column[1..]);
      match column[0]
      case None => rest
      case Some(s) => [Strip(s)] + rest
  }

  /** Every text cell's stripped value is in the cleaned column. */
  lemma {:induction false} CleanKeeps(column: seq<Cell>)
    ensures forall j :: 0 <= j < |column| && column[j].Some? ==> Strip(column[j].value) in CleanColumn(column)
  {
    if column != [] {
      var rest := CleanColumn(column[1..]);
      CleanKeeps(column[1..]);
      forall j | 1 <= j < |column| && column[j].Some?
        ensures Strip(column[j].value) in rest
      {
        assert column[j] == column[1..][j - 1];
      }
    }
  }

  /** Every entry of the cleaned column is the stripped value of some text cell. */
  lemma {:induction false} CleanFrom(column: seq<Cell>, x: string)
    requires x in CleanColumn(column)
    ensures exists j :: 0 <= j < |column| && column[j].Some? && Strip(column[j].value) == x
  {
    var rest := CleanColumn(column[1..]);
    if column[0].Some? && x == Strip(column[0].value) {
      assert column[0].Some? && Strip(column[0].value) == x;
    } else {
      assert x in rest;
      CleanFrom(column[1..], x);
      var j :| 0 <= j < |column[1..]| && column[1..][j].Some? && Strip(column[1..][j].value) == x;
      assert column[j + 1] == column[1..][j];
    }
  }

  /** The cleaned column holds the stripped text of every text cell, and nothing else. */
  lemma CleanColumnSpec(column: seq<Cell>)
    ensures var r := CleanColumn(column);
      && (forall x :: x in r ==> IsStripped(x))
      && (forall j :: 0 <= j < |column| && column[j].Some? ==> Strip(column[j].value) in r)
      && (forall x :: x in r ==> exists j :: 0 <= j < |column| && column[j].Some? && Strip(column[j].value) == x)
  {
    CleanKeeps(column);
    forall x | x in CleanColumn(column)
      ensures IsStripped(x) && exists j :: 0 <= j < |column| && column[j].Some? && Strip(column[j].value) == x
    {
      CleanFrom(column, x);
    }
  }

  /** The list comprehension that keeps the entries with an accepted prefix. */
  function KeepProfileUrls(entries: seq<string>): seq<string>
  {
    if entries == [] then []
    else
      var rest := KeepProfileUrls(entries[1..]);
      if IsProfileUrl(entries[0]) then [entries[0]] + rest else rest
  }

  /** The filter keeps exactly the accepted entries. */
  lemma {:induction false} KeepMembers(entries: seq<string>)
    ensures forall x :: x in KeepProfileUrls(entries) <==> x in entries && IsProfileUrl(x)
  {
    if entries != [] {
      KeepMembers(entries[1..]);
      assert entries == [entries[0]] + entries[1..];
    }
  }

  /** The filter's result is an order-preserving subsequence of its input. */
  lemma {:induction false} KeepSubseq(entries: seq<string>)
    ensures Subseq(KeepProfileUrls(entries), entries)
  {
    if entries != [] {
      KeepSubseq(entries[1..]);
      var r := KeepProfileUrls(entries);
      if IsProfileUrl(entries[0]) {
        assert r[0] == entries[0] && r[1..] == KeepProfileUrls(entries[1..]);
      }
    }
  }

  /** Every accepted entry is kept as often as it occurs. */
  lemma {:induction false} KeepCounts(entries: seq<string>, x: string)
    requires IsProfileUrl(x)
    ensures multiset(KeepProfileUrls(entries))[x] == multiset(entries)[x]
  {
    if entries != [] {
      KeepCounts(entries[1..], x);
      assert entries == [entries[0]] + entries[1..];
    }
  }

  /**
   * The filter keeps only accepted entries, in order, and every accepted
   * entry as often as it occurs.
   */
  lemma KeepProfileUrlsSpec(entries: seq<string>)
    ensures var r := KeepProfileUrls(entries);
      && (forall k :: 0 <= k < |r| ==> IsProfileUrl(r[k]))
      && Subseq(r, entries)
      && (forall x :: IsProfileUrl(x) ==> multiset(r)[x] == multiset(entries)[x])
      && (forall x :: x in r <==> x in entries && IsProfileUrl(x))
  {
    KeepMembers(entries);
    KeepSubseq(entries);
    forall x | IsProfileUrl(x)
      ensures multiset(KeepProfileUrls(entries))[x] == multiset(entries)[x]
    {
      KeepCounts(entries, x);
    }
  }

  /** What a successful load promises: accepted, stripped entries of the `URL` column, in order, none lost. */
  ghost predicate ProfilesOfSheet(sheet: Sheet, profiles: seq<string>)
  {
    && sheet.Workbook? && UrlColumn in sheet.columns
    && var cleaned := CleanColumn(sheet.columns[UrlColumn]);
    && |profiles| > 0
    && (forall k :: 0 <= k < |profiles| ==> IsProfileUrl(profiles[k]) && IsStripped(profiles[k]))
    && Subseq(profiles, cleaned)
    && (forall x :: IsProfileUrl(x) ==> multiset(profiles)[x] == multiset(cleaned)[x])
  }

  /**
   * `FileManager.load_profiles`: the cleaned, accepted entries of the `URL`
   * column, or the error that the function raises (wrapped, see
   * `LoadErrorText`) when the sheet cannot be read, has no `URL` column or
   * yields no accepted entry.
   */
  function LoadProfiles(sheet: Sheet): Result<seq<string>, LoadError>
  {
    match sheet
    case Unreadable(reason) => Err(ReadFailed(reason))
    case Workbook(columns) =>
      if UrlColumn !in columns then Err(MissingUrlColumn)
      else
        var valid := KeepProfileUrls(CleanColumn(columns[UrlColumn]));
        if valid == [] then Err(NoValidUrls) else Ok(valid)
  }

  /** Each error of `load_profiles` happens exactly in its own case. */
  lemma LoadErrors(sheet: Sheet)
    ensures var r := LoadProfiles(sheet);
      && (sheet.Unreadable? <==> r.Err? && r.error.ReadFailed?)
      && (sheet.Workbook? && UrlColumn !in sheet.columns <==> r == Err(MissingUrlColumn))
      && (r == Err(NoValidUrls) <==>
            sheet.Workbook? && UrlColumn in sheet.columns &&
            forall x :: x in CleanColumn(sheet.columns[UrlColumn]) ==> !IsProfileUrl(x))
  {
    if sheet.Workbook? && UrlColumn in sheet.columns {
      NoneKept(CleanColumn(sheet.columns[UrlColumn]));
    }
  }

  /** A successful load satisfies `ProfilesOfSheet`. */
  lemma LoadedProfiles(sheet: Sheet)
    requires LoadProfiles(sheet).Ok?
    ensures ProfilesOfSheet(sheet, LoadProfiles(sheet).value)
  {
    var cleaned := CleanColumn(sheet.columns[UrlColumn]);
    var r := KeepProfileUrls(cleaned);
    CleanColumnSpec(sheet.columns[UrlColumn]);
    KeepProfileUrlsSpec(cleaned);
    forall k | 0 <= k < |r|
      ensures IsProfileUrl(r[k]) && IsStripped(r[k])
    {
      assert r[k] in r;
    }
  }

  /** The filter keeps nothing exactly when no entry has an accepted prefix. */
  lemma NoneKept(entries: seq<string>)
    ensures KeepProfileUrls(entries) == [] <==> forall x :: x in entries ==> !IsProfileUrl(x)
  {
    KeepMembers(entries);
    var r := KeepProfileUrls(entries);
    if r != [] {
      assert r[0] in entries && IsProfileUrl(r[0]);
    }
  }

  // ---------------------------------------------------------------------
  // Results log
  // ---------------------------------------------------------------------

  /** One CSV record: its fields in order. */
  type Record = seq<string>

  const ProfileColumn := "Profile URL"
  const StatusColumn := "Status"
  const Header: Record := [ProfileColumn, StatusColumn, "Message", "Timestamp", "Error"]
  const MessageLimit := 500
  const ErrorLimit := 200

  /** The results CSV file: absent, or its records (the first is read as the header). */
  datatype ResultsFile = Absent | Present(lines: seq<Record>)

  /** `init_results_file`: create the file with the header row when it is absent. */
  function InitFile(f: ResultsFile): (r: ResultsFile)
    ensures r.Present?
    ensures f.Present? ==> r == f
    ensures f.Absent? ==> r.lines == [Header]
  {
    if f.Absent? then Present([Header]) else f
  }

  /** Initialising twice is initialising once. */
  lemma InitIdempotent(f: ResultsFile)
    ensures InitFile(InitFile(f)) == InitFile(f)
  {
  }

  /** The error cell: empty for a falsy error (`None` or `''`), else its first 200 characters. */
  function ErrorCell(error: Option<string>): (c: string)
    ensures (error.None? || error.value == "") ==> c == ""
    ensures error.Some? && error.value != "" ==> c == Take(error.value, ErrorLimit)
  {
    if error.None? || error.value == "" then "" else Take(error.value, ErrorLimit)
  }

  /** The row that `record_result` writes. */
  function MakeRow(profileUrl: string, status: string, message: string, timestamp: string,
                   error: Option<string>): Record
  {
    [profileUrl, status, Take(message, MessageLimit), timestamp, ErrorCell(error)]
  }

  /** Every field of a written row is the input, the truncated message or the truncated error. */
  lemma MakeRowFields(profileUrl: string, status: string, message: string, timestamp: string,
                      error: Option<string>)
    ensures var row := MakeRow(profileUrl, status, message, timestamp, error);
      && |row| == |Header|
      && row[0] == profileUrl && row[1] == status && row[3] == timestamp
      && |row[2]| <= MessageLimit && StartsWith(message, row[2])
      && (|message| <= MessageLimit ==> row[2] == message)
      && ((error.None? || error.value == "") <==> row[4] == "")
      && (error.Some? && error.value != "" ==> |row[4]| <= ErrorLimit && StartsWith(error.value, row[4]))
  {
    var row := MakeRow(profileUrl, status, message, timestamp, error);
    assert StartsWith(message, row[2]);
    if error.Some? && error.value != "" {
      assert |error.value| > 0;
      assert StartsWith(error.value, row[4]);
    }
  }

  /** Opening in append mode: an absent file is created holding just the row. */
  function Append(f: ResultsFile, row: Record): (r: ResultsFile)
    ensures r.Present?
    ensures f.Present? ==> r.lines == f.lines + [row]
    ensures f.Absent? ==> r.lines == [row]
  {
    match f
    case Absent => Present([row])
    case Present(lines) => Present(lines + [row])
  }

  /** Several appends, in order. */
  function AppendAll(f: ResultsFile, rows: seq<Record>): ResultsFile
    decreases |rows|
  {
    if rows == [] then f else Append(AppendAll(f, rows[..|rows| - 1]), rows[|rows| - 1])
  }

  /** The results table: a header and records, both empty when there is nothing to read. */
  datatype Table = Table(columns: Record, rows: seq<Record>)

  /**
   * `get_results_df`: everything stored after the header, in order; the
   * empty table when the file is absent or empty (the reader's error is
   * caught there).
   */
  function GetResults(f: ResultsFile): (t: Table)
    ensures (f.Absent? || f.lines == []) ==> t == Table([], [])
    ensures f.Present? && f.lines != [] ==> t.columns == f.lines[0] && f.lines == [t.columns] + t.rows
  {
    if f.Absent? || f.lines == [] then Table([], []) else Table(f.lines[0], f.lines[1..])
  }

  /** Appending to an existing file puts the records after its old ones. */
  lemma {:induction false} AppendAllLines(f: ResultsFile, rows: seq<Record>)
    requires f.Present?
    ensures AppendAll(f, rows) == Present(f.lines + rows)
    decreases |rows|
  {
    if rows != [] {
      var init := rows[..|rows| - 1];
      AppendAllLines(f, init);
      assert f.lines + init + [rows[|rows| - 1]] == f.lines + rows;
    }
  }

  /**
   * A results file that exists but is empty gets no header from
   * `init_results_file`; its first appended record is then read as the
   * header, and unless that record has a `Profile URL` cell the sent set
   * stays empty however many records follow.
   */
  lemma EmptyLogNeverSent(rows: seq<Record>)
    requires rows != [] && ProfileColumn !in rows[0]
    ensures InitFile(Present([])) == Present([])
    ensures GetResults(AppendAll(Present([]), rows)) == Table(rows[0], rows[1..])
    ensures LoadSentProfiles(AppendAll(Present([]), rows)) == {}
  {
    AppendAllLines(Present([]), rows);
    assert [] + rows == rows;
    var g := AppendAll(Present([]), rows);
    assert g.lines == rows && !HasLogColumns(g.lines[0]);
  }

  /** Appending keeps the first record of a file that has one. */
  lemma {:induction false} AppendAllHeader(f: ResultsFile, rows: seq<Record>)
    requires f.Present? && f.lines != []
    ensures AppendAll(f, rows).Present? && AppendAll(f, rows).lines != [] && AppendAll(f, rows).lines[0] == f.lines[0]
    decreases |rows|
  {
    if rows != [] {
      AppendAllHeader(f, rows[..|rows| - 1]);
    }
  }

  /** A record followed by a read: the record comes back last, earlier records unchanged. */
  lemma {:induction false} GetAfterAppendAll(f: ResultsFile, rows: seq<Record>)
    requires f.Present? && f.lines != []
    ensures AppendAll(f, rows).Present?
    ensures GetResults(AppendAll(f, rows)) == Table(f.lines[0], f.lines[1..] + rows)
    decreases |rows|
  {
    if rows != [] {
      var init := rows[..|rows| - 1];
      GetAfterAppendAll(f, init);
      assert init + [rows[|rows| - 1]] == rows;
    }
  }

  /** The position of the first column called `name`. */
  function ColumnIndex(header: Record, name: string): (j: nat)
    requires name in header
    ensures j < |header| && header[j] == name
    ensures forall k :: 0 <= k < j ==> header[k] != name
  {
    if header[0] == name then 0 else 1 + ColumnIndex(header[1..], name)
  }

  /** The cell of `record` under the column `name`, missing when the record is too short. */
  function Field(header: Record, record: Record, name: string): Option<string>
  {
    if name in header && ColumnIndex(header, name) < |record| then Some(record[ColumnIndex(header, name)]) else None
  }

  /** A header that the sent-profile lookup can use. */
  predicate HasLogColumns(header: Record)
  {
    ProfileColumn in header && StatusColumn in header
  }

  /** A record with status `Success` and a profile cell. */
  predicate IsSuccessRow(header: Record, record: Record)
  {
    Field(header, record, StatusColumn) == Some("Success") && Field(header, record, ProfileColumn).Some?
  }

  /**
   * `load_sent_profiles`: the `Profile URL` cells of the records whose
   * `Status` is `Success`; the empty set when the file is absent, empty, or
   * lacks either column (the reader's error or the missing key is caught).
   */
  function LoadSentProfiles(f: ResultsFile): set<string>
  {
    if f.Absent? || f.lines == [] || !HasLogColumns(f.lines[0]) then {}
    else
      set k | 1 <= k < |f.lines| && IsSuccessRow(f.lines[0], f.lines[k]) :: Field(f.lines[0], f.lines[k], ProfileColumn).value
  }

  /** Record `k` of `f` (past the header) is a success row for profile `p`. */
  ghost predicate SentBy(f: ResultsFile, k: int, p: string)
    requires f.Present? && f.lines != []
  {
    1 <= k < |f.lines| && IsSuccessRow(f.lines[0], f.lines[k]) && Field(f.lines[0], f.lines[k], ProfileColumn) == Some(p)
  }

  /**
   * The sent set is empty for an absent or empty file, or one lacking the
   * `Profile URL` or `Status` column; otherwise it holds exactly the
   * profiles of the success rows.
   */
  lemma LoadSentSpec(f: ResultsFile)
    ensures (f.Absent? || f.lines == [] || !HasLogColumns(f.lines[0])) ==> LoadSentProfiles(f) == {}
    ensures f.Present? && f.lines != [] && HasLogColumns(f.lines[0]) ==>
      forall p :: p in LoadSentProfiles(f) <==> exists k :: SentBy(f, k, p)
  {
    if f.Present? && f.lines != [] && HasLogColumns(f.lines[0]) {
      forall p | p in LoadSentProfiles(f)
        ensures exists k :: SentBy(f, k, p)
      {
        var k :| 1 <= k < |f.lines| && IsSuccessRow(f.lines[0], f.lines[k]) && Field(f.lines[0], f.lines[k], ProfileColumn).value == p;
        assert SentBy(f, k, p);
      }
    }
  }

  /** The profile that one record adds to the sent set. */
  function RowSent(header: Record, record: Record): set<string>
  {
    if IsSuccessRow(header, record) then {Field(header, record, ProfileColumn).value} else {}
  }

  /** Appending a record to a log with a usable header adds at most that record's profile. */
  lemma SentAfterAppend(f: ResultsFile, row: Record)
    requires f.Present? && f.lines != [] && HasLogColumns(f.lines[0])
    ensures LoadSentProfiles(Append(f, row)) == LoadSentProfiles(f) + RowSent(f.lines[0], row)
  {
    var g := Append(f, row);
    var h := f.lines[0];
    assert g.lines[0] == h;
    forall p | p in LoadSentProfiles(g)
      ensures p in LoadSentProfiles(f) + RowSent(h, row)
    {
      var k :| 1 <= k < |g.lines| && IsSuccessRow(h, g.lines[k]) && Field(h, g.lines[k], ProfileColumn) == Some(p);
      if k < |f.lines| {
        assert g.lines[k] == f.lines[k];
      } else {
        assert g.lines[k] == row;
      }
    }
    forall p | p in LoadSentProfiles(f) + RowSent(h, row)
      ensures p in LoadSentProfiles(g)
    {
      if p in LoadSentProfiles(f) {
        var k :| 1 <= k < |f.lines| && IsSuccessRow(h, f.lines[k]) && Field(h, f.lines[k], ProfileColumn) == Some(p);
        assert g.lines[k] == f.lines[k];
      } else {
        assert g.lines[|f.lines|] == row;
      }
    }
  }

  /** `SentAfterAppend` for the last of a sequence of appended records. */
  lemma SentAfterAppendAll(f: ResultsFile, rows: seq<Record>, row: Record)
    requires f.Present? && f.lines != [] && HasLogColumns(f.lines[0])
    ensures LoadSentProfiles(AppendAll(f, rows + [row])) == LoadSentProfiles(AppendAll(f, rows)) + RowSent(f.lines[0], row)
  {
    AppendAllHeader(f, rows);
    assert (rows + [row])[..|rows|] == rows;
    SentAfterAppend(AppendAll(f, rows), row);
  }

  /** A row written by `record_result` under the standard header is a success row exactly when its status is `Success`. */
  lemma MadeRowSent(profileUrl: string, status: string, message: string, timestamp: string,
                    error: Option<string>)
    ensures RowSent(Header, MakeRow(profileUrl, status, message, timestamp, error)) ==
      if status == "Success" then {profileUrl} else {}
  {
    assert ColumnIndex(Header, ProfileColumn) == 0;
    assert ColumnIndex(Header, StatusColumn) == 1;
  }

  /** The results CSV file, which the messenger creates and appends to in place. */
  class ResultStore {
    var file: ResultsFile

    constructor (initial: ResultsFile)
      ensures file == initial
    {
      file := initial;
    }

    /** `init_results_file`. */
    method InitResultsFile()
      modifies this
      ensures file == InitFile(old(file))
      ensures old(file).Present? ==> file == old(file)
    {
      if file.Absent? {
        file := Present([Header]);
      }
    }

    /**
     * `record_result`: append one row; `writeOk` is whether opening and
     * writing the file succeeds, and a failure is swallowed, leaving the file
     * as it was.
     */
    method RecordResult(profileUrl: string, status: string, message: string, timestamp: string,
                        error: Option<string>, writeOk: bool)
      modifies this
      ensures writeOk ==> file == Append(old(file), MakeRow(profileUrl, status, message, timestamp, error))
      ensures !writeOk ==> file == old(file)
    {
      if writeOk {
        file := Append(file, MakeRow(profileUrl, status, message, timestamp, error));
      }
    }
  }
}
