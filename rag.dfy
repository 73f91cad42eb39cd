/** The payroll record store of `app/rag_system.py`: a table of CSV rows,
    preprocessed once, searched by name and competency, and the lookups the
    chatbot answers from. Money is held in integer cents. */
module RagSystem {
  import opened Text
  import opened Wrappers
  import opened Utils

  /** A calendar date that exists (what `pd.to_datetime` makes of a CSV date). */
  type Day = d: Date | ValidDate(d) witness Date(2025, 1, 1)

  /** One row of the payroll CSV, as loaded. */
  datatype CsvRow = CsvRow(
    employeeId: string, name: string, competency: string,
    baseSalary: int, bonus: int, benefitsVtVr: int, otherEarnings: int,
    deductionsInss: int, deductionsIrrf: int, otherDeductions: int, netPay: int,
    paymentDate: Day)

  /** A row of the frame after preprocessing: the loaded columns and the three derived ones. */
  datatype Row = Row(data: CsvRow, competencyFormatted: string, nameNormalized: string, sourceLine: int)

  /** `PayrollRecord` (`app/models.py`). */
  datatype Record = Record(
    employeeId: string, name: string, competency: string,
    baseSalary: int, bonus: int, benefitsVtVr: int, otherEarnings: int,
    deductionsInss: int, deductionsIrrf: int, otherDeductions: int, netPay: int,
    paymentDate: string)

  /** `Evidence` (`app/models.py`); `record_data` is the record itself. */
  datatype Evidence = Evidence(employeeId: string, competency: string, recordData: Record, sourceLine: int)

  // ---------------------------------------------------------------------
  // _preprocess_data
  // ---------------------------------------------------------------------

  /** Python's `s[a:b]` for non-negative bounds: out-of-range bounds are clamped. */
  function PySlice(s: string, a: nat, b: nat): (r: string)
    ensures |r| <= |s|
    ensures a <= b <= |s| ==> r == s[a..b]
  {
    if a >= |s| then "" else if b <= a then "" else if b <= |s| then s[a..b] else s[a..]
  }

  /** `f"{x[:4]}-{x[5:7]}"`. */
  function FormatCompetency(x: string): (r: string)
  {
    PySlice(x, 0, 4) + "-" + PySlice(x, 5, 7)
  }

  /** A competency already written `YYYY-MM` is its own formatted form. */
  lemma FormatCompetencyKey(x: string)
    requires IsYearDashMonth(x)
    ensures FormatCompetency(x) == x
  {
    assert x == x[0..4] + "-" + x[5..7];
  }

  /** `str.lower().str.strip()`. */
  function NormalizeName(name: string): (r: string)
    ensures r == "" || (!IsSpace(r[0]) && !IsSpace(r[|r| - 1]))
    ensures forall i :: 0 <= i < |r| ==> !IsAsciiUpper(r[i])
  {
    StripLowerNoUpper(name);
    Strip(Lower(name))
  }

  lemma StripLowerNoUpper(name: string)
    ensures forall k :: 0 <= k < |Strip(Lower(name))| ==> !IsAsciiUpper(Strip(Lower(name))[k])
  {
    var l := Lower(name);
    var r := Strip(l);
    var i, j :| 0 <= i <= j <= |l| && r == l[i..j];
    forall k | 0 <= k < |r| ensures !IsAsciiUpper(r[k]) {
      assert r[k] == l[i + k] == LowerChar(name[i + k]);
    }
  }

  /** The derived columns of the row at index `i`; the CSV line is `i + 2` (header, 1-based). */
  function Derive(data: CsvRow, i: nat): (r: Row)
  {
    Row(data, FormatCompetency(data.competency), NormalizeName(data.name), i + 2)
  }

  /** The frame after `_preprocess_data`. */
  predicate IsPreprocessed(df: seq<Row>) {
    forall i :: 0 <= i < |df| ==> df[i] == Derive(df[i].data, i)
  }

  /** The columns as loaded, before preprocessing. */
  function Loaded(data: CsvRow): Row {
    Row(data, "", "", 0)
  }

  /** Every stored row carries a CSV line number of at least 2 and a normalized name
      without capitals or surrounding whitespace. */
  lemma PreprocessedRows(df: seq<Row>, i: int)
    requires IsPreprocessed(df) && 0 <= i < |df|
    ensures df[i].sourceLine == i + 2 >= 2
    ensures df[i].nameNormalized == Strip(Lower(df[i].data.name))
    ensures forall k :: 0 <= k < |df[i].nameNormalized| ==> !IsAsciiUpper(df[i].nameNormalized[k])
    ensures IsYearDashMonth(df[i].data.competency) ==> df[i].competencyFormatted == df[i].data.competency
  {
    if IsYearDashMonth(df[i].data.competency) {
      FormatCompetencyKey(df[i].data.competency);
    }
  }

  // ---------------------------------------------------------------------
  // _df_to_records
  // ---------------------------------------------------------------------

  /** `str(timestamp)` of a date-only pandas timestamp: `YYYY-MM-DD 00:00:00`. */
  function TimestampString(d: Day): (r: string)
    ensures |r| == 19 && r[..10] == FormatDateIso(d)
  {
    FormatDateIso(d) + " 00:00:00"
  }

  /** The `PayrollRecord` built from one row. */
  function ToRecord(row: Row): (r: Record)
    ensures r.employeeId == row.data.employeeId && r.competency == row.data.competency
  {
    var d := row.data;
    Record(d.employeeId, d.name, d.competency, d.baseSalary, d.bonus, d.benefitsVtVr,
      d.otherEarnings, d.deductionsInss, d.deductionsIrrf, d.otherDeductions, d.netPay,
      TimestampString(d.paymentDate))
  }

  /** The records of a whole frame, in row order. */
  function Records(df: seq<Row>): (r: seq<Record>)
    ensures |r| == |df|
  {
    seq(|df|, i requires 0 <= i < |df| => ToRecord(df[i]))
  }

  // ---------------------------------------------------------------------
  // Row selection (boolean masks over the frame)
  // ---------------------------------------------------------------------

  /** The masks the searches apply to the frame. */
  datatype RowTest = NameIs(name: string) | NameHas(part: string) | CompetencyIs(key: string)

  predicate Passes(row: Row, t: RowTest) {
    match t
    case NameIs(n) => row.nameNormalized == n
    case NameHas(p) => Contains(row.nameNormalized, p)
    case CompetencyIs(c) => row.data.competency == c
  }

  /** `self.df[mask]`: the rows passing the test, in row order. */
  function Select(df: seq<Row>, t: RowTest): (r: seq<Row>)
    ensures |r| <= |df|
    ensures forall x :: x in r <==> x in df && Passes(x, t)
  {
    if df == [] then []
    else
      assert df == [df[0]] + df[1..];
      (if Passes(df[0], t) then [df[0]] else []) + Select(df[1..], t)
  }

  /** Selection keeps row order: the rows of an earlier block come first. */
  lemma {:induction false} SelectAppend(a: seq<Row>, b: seq<Row>, t: RowTest)
    ensures Select(a + b, t) == Select(a, t) + Select(b, t)
    decreases |a|
  {
    if a == [] {
      assert a + b == b;
    } else {
      SelectAppend(a[1..], b, t);
      SelectAppendStep(a[0], a[1..], b, t);
      assert a == [a[0]] + a[1..];
    }
  }

  lemma SelectAppendStep(h: Row, r: seq<Row>, b: seq<Row>, t: RowTest)
    requires Select(r + b, t) == Select(r, t) + Select(b, t)
    ensures Select([h] + r + b, t) == Select([h] + r, t) + Select(b, t)
  {
    var head := if Passes(h, t) then [h] else [];
    assert [h] + r + b == [h] + (r + b);
    SelectCons(h, r + b, t);
    SelectCons(h, r, t);
    Associative(head, Select(r, t), Select(b, t));
  }

  lemma Associative(x: seq<Row>, y: seq<Row>, z: seq<Row>)
    ensures x + (y + z) == (x + y) + z
  {
  }

  lemma SelectCons(x: Row, rest: seq<Row>, t: RowTest)
    ensures Select([x] + rest, t) == (if Passes(x, t) then [x] else []) + Select(rest, t)
  {
    assert ([x] + rest)[1..] == rest;
  }

  /** A test every row passes selects the whole frame. */
  lemma {:induction false} SelectAll(df: seq<Row>, t: RowTest)
    requires forall i :: 0 <= i < |df| ==> Passes(df[i], t)
    ensures Select(df, t) == df
    decreases |df|
  {
    if df != [] {
      assert forall i :: 0 <= i < |df[1..]| ==> df[1..][i] == df[i + 1];
      SelectAll(df[1..], t);
      SelectKeepsHead(df, t);
    }
  }

  lemma SelectKeepsHead(df: seq<Row>, t: RowTest)
    requires df != [] && Passes(df[0], t) && Select(df[1..], t) == df[1..]
    ensures Select(df, t) == df
  {
    assert df == [df[0]] + df[1..];
  }

  /** The records of a frame are the records of its rows. */
  lemma RecordsMembers(df: seq<Row>, x: Record)
    ensures x in Records(df) <==> exists row :: row in df && x == ToRecord(row)
  {
    if x in Records(df) {
      RecordFromRow(df, x);
    }
    if exists row :: row in df && x == ToRecord(row) {
      var row :| row in df && x == ToRecord(row);
      RowGivesRecord(df, row);
    }
  }

  lemma RecordFromRow(df: seq<Row>, x: Record)
    requires x in Records(df)
    ensures exists row :: row in df && x == ToRecord(row)
  {
    var rs := Records(df);
    var i :| 0 <= i < |rs| && rs[i] == x;
    assert df[i] in df && rs[i] == ToRecord(df[i]);
  }

  lemma RowGivesRecord(df: seq<Row>, row: Row)
    requires row in df
    ensures ToRecord(row) in Records(df)
  {
    var rs := Records(df);
    var i :| 0 <= i < |df| && df[i] == row;
    assert rs[i] == ToRecord(row);
  }

  // ---------------------------------------------------------------------
  // search_employee
  // ---------------------------------------------------------------------

  predicate IsNameChar(c: char) { IsWordChar(c) || IsSpace(c) }

  /** `re.sub(r'[^\w\s]', '', s)`: drops every character that is neither a word character nor whitespace. */
  function RemovePunctuation(s: string): (r: string)
    ensures |r| <= |s|
    ensures forall i :: 0 <= i < |r| ==> IsNameChar(r[i])
    ensures (forall i :: 0 <= i < |s| ==> IsNameChar(s[i])) ==> r == s
  {
    if s == [] then ""
    else
      assert forall i :: 1 <= i < |s| ==> s[i] == s[1..][i - 1];
      (if IsNameChar(s[0]) then [s[0]] else "") + RemovePunctuation(s[1..])
  }

  /** The query text `search_employee` compares with the stored names. */
  function CleanName(name: string): (r: string)
    ensures forall i :: 0 <= i < |r| ==> IsNameChar(r[i])
  {
    RemovePunctuation(Strip(Lower(name)))
  }

  /** A word the keyword tier accepts: longer than two characters, and some stored name holds it. */
  predicate KeywordHit(df: seq<Row>, w: string) {
    |w| > 2 && Select(df, NameHas(w)) != []
  }

  /** The keyword tier: the matches of the first word longer than two characters that has any. */
  function KeywordMatches(df: seq<Row>, words: seq<string>): (r: seq<Row>)
    ensures r == [] <==> forall k :: 0 <= k < |words| ==> !KeywordHit(df, words[k])
    ensures r != [] ==>
      exists k :: 0 <= k < |words| && KeywordHit(df, words[k]) && r == Select(df, NameHas(words[k]))
        && (forall j :: 0 <= j < k ==> !KeywordHit(df, words[j]))
  {
    if words == [] then []
    else if KeywordHit(df, words[0]) then Select(df, NameHas(words[0]))
    else
      var r := KeywordMatches(df, words[1..]);
      assert forall k :: 1 <= k < |words| ==> words[k] == words[1..][k - 1];
      if r != [] then
        var k :| 0 <= k < |words[1..]| && KeywordHit(df, words[1..][k]) && r == Select(df, NameHas(words[1..][k]))
          && (forall j :: 0 <= j < k ==> !KeywordHit(df, words[1..][j]));
        assert words[k + 1] == words[1..][k];
        r
      else r
  }

  /** The rows `search_employee` selects for the cleaned query `clean`:
      exact name, then substring, then keyword search. */
  function TieredRows(df: seq<Row>, clean: string): (r: seq<Row>)
    ensures (exists row :: row in df && row.nameNormalized == clean) ==> r == Select(df, NameIs(clean))
    ensures (forall row :: row in df ==> row.nameNormalized != clean)
      && (exists row :: row in df && Contains(row.nameNormalized, clean))
      ==> r == Select(df, NameHas(clean))
    ensures (forall row :: row in df ==> !Contains(row.nameNormalized, clean))
      ==> r == KeywordMatches(df, Words(clean))
  {
    var exact := Select(df, NameIs(clean));
    if exact != [] then
      assert exact[0] in exact;
      ContainsAt(exact[0].nameNormalized, clean, 0);
      exact
    else
      var partial := Select(df, NameHas(clean));
      if partial != [] then
        assert partial[0] in partial;
        partial
      else KeywordMatches(df, Words(clean))
  }

  /** Every selected row is a row of the frame. */
  lemma TieredRowsFromStore(df: seq<Row>, clean: string)
    ensures forall row :: row in TieredRows(df, clean) ==> row in df
  {
    var r := TieredRows(df, clean);
    if Select(df, NameIs(clean)) == [] && Select(df, NameHas(clean)) == [] && r != [] {
      var k :| 0 <= k < |Words(clean)| && r == Select(df, NameHas(Words(clean)[k]));
    }
  }

  /** `search_employee`: the records of the selected rows. */
  function SearchEmployee(df: seq<Row>, name: string): (r: seq<Record>)
    ensures forall x :: x in r ==> exists row :: row in df && x == ToRecord(row)
  {
    var rows := TieredRows(df, CleanName(name));
    TieredRowsFromStore(df, CleanName(name));
    forall x | x in Records(rows) ensures exists row :: row in df && x == ToRecord(row) {
      RecordsMembers(rows, x);
    }
    Records(rows)
  }

  /** A query with nothing left after cleaning (only punctuation, say) lists the whole
      store, unless some stored name is itself empty. */
  lemma SearchEmployeeEmptyQuery(df: seq<Row>, name: string)
    requires CleanName(name) == ""
    requires forall i :: 0 <= i < |df| ==> df[i].nameNormalized != ""
    ensures SearchEmployee(df, name) == Records(df)
  {
    forall i | 0 <= i < |df| ensures Passes(df[i], NameHas("")) {
      ContainsAt(df[i].nameNormalized, "", 0);
    }
    SelectAll(df, NameHas(""));
    if df != [] {
      assert Passes(df[0], NameHas(""));
    }
  }

  // ---------------------------------------------------------------------
  // search_by_competency and search_employee_competency
  // ---------------------------------------------------------------------

  /** `search_by_competency`: the records whose competency is the canonical form of the argument. */
  function SearchByCompetency(df: seq<Row>, competency: string): (r: seq<Record>)
    ensures ParseCompetency(competency).None? ==> r == []
    ensures forall x :: x in r <==> exists row :: row in df && x == ToRecord(row) && Some(row.data.competency) == ParseCompetency(competency)
  {
    var parsed := ParseCompetency(competency);
    if parsed.None? then []
    else
      var rows := Select(df, CompetencyIs(parsed.value));
      forall x ensures x in Records(rows) <==> exists row :: row in df && x == ToRecord(row) && Some(row.data.competency) == parsed {
        CompetencyMembers(df, parsed.value, x);
      }
      Records(rows)
  }

  /** The records of the rows selected by competency are those of the rows holding it. */
  lemma CompetencyMembers(df: seq<Row>, key: string, x: Record)
    ensures x in Records(Select(df, CompetencyIs(key))) <==> exists row :: row in df && x == ToRecord(row) && Some(row.data.competency) == Some(key)
  {
    RecordsMembers(Select(df, CompetencyIs(key)), x);
  }

  /** The sub-list of records with a given competency, in order. */
  function WithCompetency(rs: seq<Record>, key: string): (r: seq<Record>)
    ensures |r| <= |rs|
    ensures forall x :: x in r <==> x in rs && x.competency == key
    ensures r != [] ==> exists i :: (0 <= i < |rs| && rs[i] == r[0] && rs[i].competency == key
                                     && forall j :: 0 <= j < i ==> rs[j].competency != key)
  {
    if rs == [] then []
    else if rs[0].competency == key then
      [rs[0]] + WithCompetency(rs[1..], key)
    else
      var tail := WithCompetency(rs[1..], key);
      FirstKeptShift(rs, key, tail);
      tail
  }

  /** A first kept record of the tail, behind a head that is not kept, is the first kept
      record of the whole list. */
  lemma FirstKeptShift(rs: seq<Record>, key: string, tail: seq<Record>)
    requires rs != [] && rs[0].competency != key
    requires tail != [] ==> exists i :: (0 <= i < |rs[1..]| && rs[1..][i] == tail[0] && rs[1..][i].competency == key
                                         && forall j :: 0 <= j < i ==> rs[1..][j].competency != key)
    ensures tail != [] ==> exists i :: (0 <= i < |rs| && rs[i] == tail[0] && rs[i].competency == key
                                        && forall j :: 0 <= j < i ==> rs[j].competency != key)
  {
    if tail != [] {
      var i :| 0 <= i < |rs[1..]| && rs[1..][i] == tail[0] && rs[1..][i].competency == key
        && forall j :: 0 <= j < i ==> rs[1..][j].competency != key;
      assert rs[i + 1] == tail[0];
      forall j | 0 <= j < i + 1 ensures rs[j].competency != key {
        if j > 0 { assert rs[j] == rs[1..][j - 1]; }
      }
    }
  }

  /** Filtering by competency distributes over concatenation, so the kept records stay in
      row order. */
  lemma {:induction false} WithCompetencyAppend(a: seq<Record>, b: seq<Record>, key: string)
    ensures WithCompetency(a + b, key) == WithCompetency(a, key) + WithCompetency(b, key)
    decreases |a|
  {
    if a == [] {
      assert a + b == b;
    } else {
      WithCompetencyAppend(a[1..], b, key);
      WithCompetencyAppendStep(a[0], a[1..], b, key);
      assert a == [a[0]] + a[1..];
    }
  }

  lemma WithCompetencyAppendStep(h: Record, r: seq<Record>, b: seq<Record>, key: string)
    requires WithCompetency(r + b, key) == WithCompetency(r, key) + WithCompetency(b, key)
    ensures WithCompetency([h] + r + b, key) == WithCompetency([h] + r, key) + WithCompetency(b, key)
  {
    var head := if h.competency == key then [h] else [];
    assert [h] + r + b == [h] + (r + b);
    WithCompetencyCons(h, r + b, key);
    WithCompetencyCons(h, r, key);
    RecordsAssociative(head, WithCompetency(r, key), WithCompetency(b, key));
  }

  lemma RecordsAssociative(x: seq<Record>, y: seq<Record>, z: seq<Record>)
    ensures x + (y + z) == (x + y) + z
  {
  }

  lemma WithCompetencyCons(x: Record, rest: seq<Record>, key: string)
    ensures WithCompetency([x] + rest, key) == (if x.competency == key then [x] else []) + WithCompetency(rest, key)
  {
    assert ([x] + rest)[1..] == rest;
  }

  /** `search_employee_competency`: the employee's records in the canonical competency. */
  function SearchEmployeeCompetency(df: seq<Row>, name: string, competency: string): (r: seq<Record>)
    ensures ParseCompetency(competency).None? ==> r == []
    ensures forall x :: x in r <==> x in SearchEmployee(df, name) && Some(x.competency) == ParseCompetency(competency)
    ensures r != [] ==> var es := SearchEmployee(df, name);
      exists i :: (0 <= i < |es| && es[i] == r[0] && Some(es[i].competency) == ParseCompetency(competency)
                   && forall j :: 0 <= j < i ==> Some(es[j].competency) != ParseCompetency(competency))
  {
    var employees := SearchEmployee(df, name);
    if employees == [] then []
    else
      var parsed := ParseCompetency(competency);
      if parsed.None? then []
      else
        KeptInCompetency(employees, parsed);
        WithCompetency(employees, parsed.value)
  }

  /** The competency filter, stated against the parsed competency. */
  lemma KeptInCompetency(es: seq<Record>, parsed: Option<string>)
    requires parsed.Some?
    ensures forall x :: x in WithCompetency(es, parsed.value) <==> x in es && Some(x.competency) == parsed
    ensures var r := WithCompetency(es, parsed.value);
      r != [] ==> exists i :: (0 <= i < |es| && es[i] == r[0] && Some(es[i].competency) == parsed
                               && forall j :: 0 <= j < i ==> Some(es[j].competency) != parsed)
  {
    var r := WithCompetency(es, parsed.value);
    if r != [] {
      var i :| (0 <= i < |es| && es[i] == r[0] && es[i].competency == parsed.value
                && forall j :: 0 <= j < i ==> es[j].competency != parsed.value);
      assert Some(es[i].competency) == parsed;
    }
  }

  // ---------------------------------------------------------------------
  // _get_source_line and the evidence
  // ---------------------------------------------------------------------

  predicate RowIs(row: Row, employeeId: string, competency: string) {
    row.data.employeeId == employeeId && row.data.competency == competency
  }

  /** `_get_source_line`: the CSV line of the first row with that employee and competency, 0 if none. */
  function SourceLine(df: seq<Row>, employeeId: string, competency: string): (n: int)
    ensures (forall i :: 0 <= i < |df| ==> !RowIs(df[i], employeeId, competency)) ==> n == 0
    ensures forall i :: 0 <= i < |df| && RowIs(df[i], employeeId, competency) ==>
      (forall j :: 0 <= j < i ==> !RowIs(df[j], employeeId, competency)) ==> n == df[i].sourceLine
  {
    if df == [] then 0
    else if RowIs(df[0], employeeId, competency) then df[0].sourceLine
    else
      assert forall i :: 1 <= i < |df| ==> df[i] == df[1..][i - 1];
      SourceLine(df[1..], employeeId, competency)
  }

  /** The first matching row is found; in a preprocessed frame its line is its index plus 2. */
  lemma SourceLineFirst(df: seq<Row>, employeeId: string, competency: string)
    requires IsPreprocessed(df)
    requires exists i :: 0 <= i < |df| && RowIs(df[i], employeeId, competency)
    ensures exists i :: 0 <= i < |df| && RowIs(df[i], employeeId, competency) && SourceLine(df, employeeId, competency) == i + 2
  {
    var k :| 0 <= k < |df| && RowIs(df[k], employeeId, competency);
    var i := FirstRow(df, employeeId, competency, k);
    assert df[i] == Derive(df[i].data, i);
    assert SourceLine(df, employeeId, competency) == df[i].sourceLine == i + 2;
  }

  /** The least index at or below `k` whose row matches. */
  lemma FirstRow(df: seq<Row>, employeeId: string, competency: string, k: int) returns (i: int)
    requires 0 <= k < |df| && RowIs(df[k], employeeId, competency)
    ensures 0 <= i <= k && RowIs(df[i], employeeId, competency)
    ensures forall j :: 0 <= j < i ==> !RowIs(df[j], employeeId, competency)
    decreases k
  {
    if j :| 0 <= j < k && RowIs(df[j], employeeId, competency) {
      i := FirstRow(df, employeeId, competency, j);
    } else {
      i := k;
    }
  }

  /** The evidence for one record: its key, the record, and its CSV line. */
  function EvidenceFor(df: seq<Row>, x: Record): (e: Evidence)
    ensures e.employeeId == x.employeeId && e.competency == x.competency && e.recordData == x
  {
    Evidence(x.employeeId, x.competency, x, SourceLine(df, x.employeeId, x.competency))
  }

  /** Evidence for a record drawn from a preprocessed store cites a real CSV line, at least 2. */
  lemma EvidenceLine(df: seq<Row>, x: Record)
    requires IsPreprocessed(df)
    requires exists row :: row in df && x == ToRecord(row)
    ensures EvidenceFor(df, x).sourceLine >= 2
  {
    var row :| row in df && x == ToRecord(row);
    var k :| 0 <= k < |df| && df[k] == row;
    assert RowIs(df[k], x.employeeId, x.competency);
    SourceLineFirst(df, x.employeeId, x.competency);
  }

  // ---------------------------------------------------------------------
  // Single-record lookups
  // ---------------------------------------------------------------------

  /** `get_net_pay`: the net pay of the first record of the employee in the competency. */
  function GetNetPay(df: seq<Row>, name: string, competency: string): (r: Option<(int, Evidence)>)
    ensures r.None? <==> SearchEmployeeCompetency(df, name, competency) == []
    ensures r.Some? ==> var x := SearchEmployeeCompetency(df, name, competency)[0];
      r.value.0 == x.netPay && r.value.1 == EvidenceFor(df, x)
  {
    var records := SearchEmployeeCompetency(df, name, competency);
    if records == [] then None
    else Some((records[0].netPay, EvidenceFor(df, records[0])))
  }

  /** `getattr(record, f"deductions_{kind.lower()}", 0)`. */
  function DeductionValue(x: Record, deductionType: string): (v: int)
  {
    var kind := Lower(deductionType);
    if kind == "inss" then x.deductionsInss else if kind == "irrf" then x.deductionsIrrf else 0
  }

  /** The deduction type is read case-insensitively; a type with no such column reads as 0. */
  lemma DeductionKinds(x: Record)
    ensures DeductionValue(x, "INSS") == DeductionValue(x, "inss") == x.deductionsInss
    ensures DeductionValue(x, "Irrf") == x.deductionsIrrf
    ensures DeductionValue(x, "fgts") == 0
  {
    assert Lower("INSS") == "inss" && Lower("Irrf") == "irrf" && Lower("inss") == "inss";
    assert Lower("fgts") == "fgts";
  }

  /** `get_deduction`: the named deduction of the first record of the employee in the competency. */
  function GetDeduction(df: seq<Row>, name: string, competency: string, deductionType: string): (r: Option<(int, Evidence)>)
    ensures r.None? <==> SearchEmployeeCompetency(df, name, competency) == []
    ensures r.Some? ==> var x := SearchEmployeeCompetency(df, name, competency)[0];
      r.value.1 == EvidenceFor(df, x)
      && r.value.0 == (if Lower(deductionType) == "inss" then x.deductionsInss
                       else if Lower(deductionType) == "irrf" then x.deductionsIrrf else 0)
  {
    var records := SearchEmployeeCompetency(df, name, competency);
    if records == [] then None
    else Some((DeductionValue(records[0], deductionType), EvidenceFor(df, records[0])))
  }

  /** `get_payment_date`: `parse_date_br` applied to the first record's payment date. */
  function GetPaymentDate(df: seq<Row>, name: string, competency: string): (r: Option<(string, Evidence)>)
    ensures r.None? <==> SearchEmployeeCompetency(df, name, competency) == []
    ensures r.Some? ==> var x := SearchEmployeeCompetency(df, name, competency)[0];
      r.value.1 == EvidenceFor(df, x) && r.value.0 == ParseDateBr(Text(x.paymentDate), None)
  {
    var records := SearchEmployeeCompetency(df, name, competency);
    if records == [] then None
    else Some((ParseDateBr(Text(records[0].paymentDate), None), EvidenceFor(df, records[0])))
  }

  /** The stored payment date is a timestamp text with a time of day after the date, so
      `parse_date_br` hands it back unchanged rather than as `DD/MM/YYYY`. */
  lemma GetPaymentDateUnchanged(df: seq<Row>, name: string, competency: string)
    requires GetPaymentDate(df, name, competency).Some?
    ensures var r := GetPaymentDate(df, name, competency).value;
      r.0 == r.1.recordData.paymentDate && |r.0| == 19 && r.0[10..] == " 00:00:00"
  {
    var x := SearchEmployeeCompetency(df, name, competency)[0];
    assert x in SearchEmployee(df, name);
    var row :| row in df && x == ToRecord(row);
    TrailingTextUnchanged(row.data.paymentDate, " 00:00:00", None);
  }

  // ---------------------------------------------------------------------
  // get_total_period
  // ---------------------------------------------------------------------

  /** The records whose competency lies in `[start, end]` under string order, in order. */
  function InPeriod(rs: seq<Record>, start: string, end: string): (r: seq<Record>)
    ensures |r| <= |rs|
    ensures forall x :: x in r <==> x in rs && LexLe(start, x.competency) && LexLe(x.competency, end)
  {
    if rs == [] then []
    else
      var last := rs[|rs| - 1];
      assert rs == rs[..|rs| - 1] + [last];
      InPeriod(rs[..|rs| - 1], start, end) + (if LexLe(start, last.competency) && LexLe(last.competency, end) then [last] else [])
  }

  /** A period holds records only when its start does not come after its end. */
  lemma InPeriodOrderedBounds(rs: seq<Record>, start: string, end: string)
    ensures InPeriod(rs, start, end) != [] ==> LexLe(start, end)
  {
    var r := InPeriod(rs, start, end);
    if r != [] {
      assert r[0] in r;
      LexLeTransitive(start, r[0].competency, end);
    }
  }

  /** A one-month period holds exactly the records of that month. */
  lemma InPeriodOneMonth(rs: seq<Record>, month: string, x: Record)
    ensures x in InPeriod(rs, month, month) <==> x in rs && x.competency == month
  {
    LexLeTotal(month, x.competency);
    LexLeReflexive(month);
  }

  /** `sum(emp.net_pay for emp in records)`. */
  function SumNetPay(rs: seq<Record>): (total: int)
  {
    if rs == [] then 0 else SumNetPay(rs[..|rs| - 1]) + rs[|rs| - 1].netPay
  }

  /** The total of two consecutive blocks is the sum of their totals. */
  lemma {:induction false} SumNetPayAppend(a: seq<Record>, b: seq<Record>)
    ensures SumNetPay(a + b) == SumNetPay(a) + SumNetPay(b)
    decreases |b|
  {
    if b == [] {
      assert a + b == a;
    } else {
      assert (a + b)[..|a + b| - 1] == a + b[..|b| - 1];
      SumNetPayAppend(a, b[..|b| - 1]);
    }
  }

  /** Records with no pay sum to nothing; a single record sums to its pay. */
  lemma SumNetPaySingle(x: Record)
    ensures SumNetPay([x]) == x.netPay
  {
    assert [x][..0] == [];
  }

  /** One evidence per record, in order. */
  function EvidenceList(df: seq<Row>, rs: seq<Record>): (es: seq<Evidence>)
    ensures |es| == |rs|
    ensures forall i :: 0 <= i < |rs| ==> es[i].employeeId == rs[i].employeeId && es[i].competency == rs[i].competency
  {
    seq(|rs|, i requires 0 <= i < |rs| => EvidenceFor(df, rs[i]))
  }

  /** Every evidence built for records of a preprocessed store cites a CSV line of at least 2. */
  lemma EvidenceListLines(df: seq<Row>, rs: seq<Record>)
    requires IsPreprocessed(df)
    requires forall x :: x in rs ==> exists row :: row in df && x == ToRecord(row)
    ensures forall i :: 0 <= i < |rs| ==> EvidenceList(df, rs)[i].sourceLine >= 2
  {
    forall i | 0 <= i < |rs| ensures EvidenceList(df, rs)[i].sourceLine >= 2 {
      assert rs[i] in rs;
      EvidenceLine(df, rs[i]);
    }
  }

  /** What `get_total_period` returns for the employee's records `employees`: the total net
      pay of those whose competency lies in the inclusive range, and one evidence per such record. */
  function PeriodTotal(df: seq<Row>, employees: seq<Record>, startComp: string, endComp: string): (r: Option<(int, seq<Evidence>)>)
    ensures var start, end := ParseCompetency(startComp), ParseCompetency(endComp);
      r.None? <==> (start.None? || end.None?
        || forall x :: x in employees ==> !(LexLe(start.value, x.competency) && LexLe(x.competency, end.value)))
    ensures var start, end := ParseCompetency(startComp), ParseCompetency(endComp);
      r.Some? ==>
        (start.Some? && end.Some?
         && r.value.0 == SumNetPay(InPeriod(employees, start.value, end.value))
         && r.value.1 == EvidenceList(df, InPeriod(employees, start.value, end.value)))
    ensures r.Some? ==> r.value.1 != []
  {
    if employees == [] then None
    else
      var start, end := ParseCompetency(startComp), ParseCompetency(endComp);
      if start.None? || end.None? then None
      else
        var period := InPeriod(employees, start.value, end.value);
        if period == [] then None
        else
          assert period[0] in period;
          Some((SumNetPay(period), EvidenceList(df, period)))
  }

  /** `get_total_period` over the records `search_employee` finds. */
  function TotalPeriod(df: seq<Row>, name: string, startComp: string, endComp: string): (r: Option<(int, seq<Evidence>)>)
    ensures r.Some? ==> r.value.1 != []
  {
    PeriodTotal(df, SearchEmployee(df, name), startComp, endComp)
  }

  /** The index of the first record holding the largest bonus, if that bonus is positive:
      a record takes the lead only with a strictly larger bonus, starting from 0. */
  function BestBonus(es: seq<Record>): (r: Option<nat>)
    ensures r.None? <==> forall k :: 0 <= k < |es| ==> es[k].bonus <= 0
    ensures r.Some? ==>
      (r.value < |es| && es[r.value].bonus > 0
       && (forall j :: 0 <= j < |es| ==> es[j].bonus <= es[r.value].bonus)
       && (forall j :: 0 <= j < r.value ==> es[j].bonus < es[r.value].bonus))
  {
    if es == [] then None
    else
      var b := BestBonus(es[..|es| - 1]);
      var last := es[|es| - 1];
      assert forall j :: 0 <= j < |es| - 1 ==> es[..|es| - 1][j] == es[j];
      if last.bonus > (if b.Some? then es[b.value].bonus else 0) then Some(|es| - 1) else b
  }

  /** What `get_max_bonus` returns for the employee's records `es`: the largest bonus, its
      competency and the evidence of the first record holding it; nothing when no bonus is positive. */
  function MaxBonusOf(df: seq<Row>, es: seq<Record>): (r: Option<(int, string, Evidence)>)
    ensures r.None? <==> forall k :: 0 <= k < |es| ==> es[k].bonus <= 0
    ensures r.Some? ==>
      exists k :: 0 <= k < |es| && r.value == (es[k].bonus, es[k].competency, EvidenceFor(df, es[k]))
        && (forall j :: 0 <= j < |es| ==> es[j].bonus <= es[k].bonus)
        && (forall j :: 0 <= j < k ==> es[j].bonus < es[k].bonus)
  {
    var b := BestBonus(es);
    if b.None? then None
    else Some((es[b.value].bonus, es[b.value].competency, EvidenceFor(df, es[b.value])))
  }

  /** `get_max_bonus` over the records `search_employee` finds. */
  function MaxBonus(df: seq<Row>, name: string): Option<(int, string, Evidence)> {
    MaxBonusOf(df, SearchEmployee(df, name))
  }

  // ---------------------------------------------------------------------
  // The store
  // ---------------------------------------------------------------------

  /** `PayrollRAG`: the frame, preprocessed once when the store is built. */
  class PayrollRag {
    var df: seq<Row>

    /** Builds the store over the rows loaded from the CSV. */
    constructor (loaded: seq<CsvRow>)
      ensures IsPreprocessed(df)
      ensures |df| == |loaded| && forall i :: 0 <= i < |df| ==> df[i].data == loaded[i]
    {
      df := seq(|loaded|, i requires 0 <= i < |loaded| => Loaded(loaded[i]));
      new;
      PreprocessData();
    }

    /** `_preprocess_data`: fills the derived columns of every row in place. */
    method PreprocessData()
      modifies this
      ensures IsPreprocessed(df)
      ensures |df| == |old(df)| && forall i :: 0 <= i < |df| ==> df[i].data == old(df)[i].data
    {
      var i := 0;
      while i < |df|
        invariant 0 <= i <= |df| == |old(df)|
        invariant forall k :: 0 <= k < |df| ==> df[k].data == old(df)[k].data
        invariant forall k :: 0 <= k < i ==> df[k] == Derive(df[k].data, k)
      {
        df := df[i := Derive(df[i].data, i)];
        i := i + 1;
      }
    }

    /** `get_total_period`. */
    method GetTotalPeriod(name: string, startComp: string, endComp: string) returns (r: Option<(int, seq<Evidence>)>)
      ensures r == TotalPeriod(df, name, startComp, endComp)
    {
      var employees := SearchEmployee(df, name);
      if employees == [] {
        return None;
      }
      var startParsed := ParseCompetency(startComp);
      var endParsed := ParseCompetency(endComp);
      if startParsed.None? || endParsed.None? {
        return None;
      }
      var periodRecords := PeriodRecords(employees, startParsed.value, endParsed.value);
      if periodRecords == [] {
        return None;
      }
      var total := SumNetPay(periodRecords);
      var evidenceList := BuildEvidence(df, periodRecords);
      return Some((total, evidenceList));
    }

    /** `get_max_bonus`. */
    method GetMaxBonus(name: string) returns (r: Option<(int, string, Evidence)>)
      ensures r == MaxBonus(df, name)
    {
      var employees := SearchEmployee(df, name);
      if employees == [] {
        return None;
      }
      var maxBonus, maxRecord := MaxBonusScan(employees);
      if maxRecord.None? {
        return None;
      }
      var x := maxRecord.value;
      return Some((maxBonus, x.competency, EvidenceFor(df, x)));
    }
  }

  /** The filtering loop of `get_total_period`: the records in `[start, end]`, appended in order. */
  method PeriodRecords(employees: seq<Record>, start: string, end: string) returns (periodRecords: seq<Record>)
    ensures periodRecords == InPeriod(employees, start, end)
  {
    periodRecords := [];
    var i := 0;
    while i < |employees|
      invariant 0 <= i <= |employees|
      invariant periodRecords == InPeriod(employees[..i], start, end)
    {
      assert employees[..i + 1][..i] == employees[..i];
      if LexLe(start, employees[i].competency) && LexLe(employees[i].competency, end) {
        periodRecords := periodRecords + [employees[i]];
      }
      i := i + 1;
    }
    assert employees[..i] == employees;
  }

  /** The evidence loop of `get_total_period`: one evidence per record, appended in order. */
  method BuildEvidence(df: seq<Row>, periodRecords: seq<Record>) returns (evidenceList: seq<Evidence>)
    ensures evidenceList == EvidenceList(df, periodRecords)
  {
    evidenceList := [];
    var i := 0;
    while i < |periodRecords|
      invariant 0 <= i <= |periodRecords|
      invariant evidenceList == EvidenceList(df, periodRecords[..i])
    {
      evidenceList := evidenceList + [EvidenceFor(df, periodRecords[i])];
      i := i + 1;
    }
    assert periodRecords[..i] == periodRecords;
  }

  /** `_df_to_records`: one record per row, appended in row order. */
  method DfToRecords(df: seq<Row>) returns (records: seq<Record>)
    ensures records == Records(df)
  {
    records := [];
    var i := 0;
    while i < |df|
      invariant 0 <= i <= |df|
      invariant records == Records(df[..i])
    {
      RecordsSnoc(df, i);
      records := records + [ToRecord(df[i])];
      i := i + 1;
    }
    assert df[..|df|] == df;
  }

  /** The records of one more row are those before it followed by its own. */
  lemma RecordsSnoc(df: seq<Row>, i: int)
    requires 0 <= i < |df|
    ensures Records(df[..i + 1]) == Records(df[..i]) + [ToRecord(df[i])]
  {
    var a, b := Records(df[..i + 1]), Records(df[..i]) + [ToRecord(df[i])];
    assert |a| == |b|;
    forall k | 0 <= k < |a| ensures a[k] == b[k] {
      assert df[..i + 1][k] == df[k];
      if k < i {
        assert df[..i][k] == df[k];
      }
    }
  }

  /** The scan of `get_max_bonus`: starting from 0, a record replaces the best so far only when
      its bonus is strictly larger. */
  method MaxBonusScan(employees: seq<Record>) returns (maxBonus: int, maxRecord: Option<Record>)
    ensures var b := BestBonus(employees);
      maxRecord == (if b.Some? then Some(employees[b.value]) else None)
      && maxBonus == (if b.Some? then employees[b.value].bonus else 0)
  {
    maxBonus := 0;
    maxRecord := None;
    ghost var best: Option<nat> := None;
    var i := 0;
    while i < |employees|
      invariant 0 <= i <= |employees|
      invariant best == BestBonus(employees[..i])
      invariant best.Some? ==> best.value < i
      invariant maxRecord == (if best.Some? then Some(employees[best.value]) else None)
      invariant maxBonus == (if best.Some? then employees[best.value].bonus else 0)
    {
      assert employees[..i + 1][..i] == employees[..i];
      if employees[i].bonus > maxBonus {
        maxBonus := employees[i].bonus;
        maxRecord := Some(employees[i]);
        best := Some(i);
      }
      i := i + 1;
    }
    assert employees[..i] == employees;
  }
}
