/** The parsing and formatting helpers of `app/utils.py`. Regular expressions
    are written out as hand-made matchers for the specific patterns; each
    matcher is proved sound and complete for the shape its pattern describes. */
module Utils {
  import opened Text
  import opened Wrappers

  // ---------------------------------------------------------------------
  // parse_competency
  // ---------------------------------------------------------------------

  /** The month table of `parse_competency`: entry k holds the abbreviation
      and the full name of month k + 1. */
  const MonthNames: seq<(string, string)> := [
    ("jan", "janeiro"), ("fev", "fevereiro"), ("mar", "março"), ("abr", "abril"),
    ("mai", "maio"), ("jun", "junho"), ("jul", "julho"), ("ago", "agosto"),
    ("set", "setembro"), ("out", "outubro"), ("nov", "novembro"), ("dez", "dezembro")
  ]

  /** The value the table gives month k + 1: its two-digit number, "01" to "12". */
  function MonthNumber(k: nat): (code: string)
    ensures |code| == 2 && AllIn(code, Digit)
  {
    PadDigits(k + 1, 2)
  }

  /** `m` is one of the values of the table. */
  predicate IsMonthNumber(m: string) {
    exists k :: 0 <= k < |MonthNames| && m == MonthNumber(k)
  }

  /** Every value of the table denotes a month from 1 to 12. */
  lemma MonthNumberRange(m: string)
    requires IsMonthNumber(m)
    ensures |m| == 2 && AllIn(m, Digit) && 1 <= DigitsValue(m) <= 12
  {
  }

  /** `name` is one of the table's keys. */
  predicate IsMonthName(name: string) {
    exists k :: 0 <= k < |MonthNames| && (MonthNames[k].0 == name || MonthNames[k].1 == name)
  }

  /** The dictionary lookup `month_map[name]`, `None` when `name` is not a key. */
  function MonthCode(name: string): (r: Option<string>)
    ensures r.Some? ==> IsMonthNumber(r.value)
  {
    var r := Lookup(MonthNames, name);
    if r.Some? then Some(MonthNumber(r.value)) else None
  }

  /** The index of the first entry of `table` that has `name` as one of its two keys. */
  function Lookup(table: seq<(string, string)>, name: string): (r: Option<nat>)
    ensures r.Some? ==> r.value < |table| && (table[r.value].0 == name || table[r.value].1 == name)
    ensures r.None? ==> forall j :: 0 <= j < |table| ==> table[j].0 != name && table[j].1 != name
  {
    if table == [] then None
    else if table[0].0 == name || table[0].1 == name then Some(0)
    else
      var r := Lookup(table[1..], name);
      if r.Some? then Some(r.value + 1) else None
  }

  /** The lookup succeeds exactly on the keys of the table. */
  lemma MonthCodeSpec(name: string)
    ensures MonthCode(name).Some? <==> IsMonthName(name)
  {
  }

  predicate IsMonthNameChar(c: char) { IsAsciiLower(c) || c == 'ç' }

  /** Every month name is a non-empty string of lower-case letters. */
  lemma MonthNamesLowercase(k: int)
    requires 0 <= k < |MonthNames|
    ensures MonthNames[k].0 != "" && forall i :: 0 <= i < |MonthNames[k].0| ==> IsMonthNameChar(MonthNames[k].0[i])
    ensures MonthNames[k].1 != "" && forall i :: 0 <= i < |MonthNames[k].1| ==> IsMonthNameChar(MonthNames[k].1[i])
  {
  }

  /** A month name is a lower-case run of word characters starting with a letter. */
  lemma MonthNameLowerWord(name: string)
    requires MonthCode(name).Some?
    ensures name != "" && AllIn(name, Word) && !IsDigit(name[0]) && Lower(name) == name
  {
    var k := Lookup(MonthNames, name).value;
    MonthNamesLowercase(k);
  }

  /** `Lookup` finds the first entry holding `name`. */
  lemma {:induction false} LookupAt(table: seq<(string, string)>, name: string, k: nat)
    requires k < |table| && (table[k].0 == name || table[k].1 == name)
    requires forall j :: 0 <= j < k ==> table[j].0 != name && table[j].1 != name
    ensures Lookup(table, name) == Some(k)
  {
    if k > 0 {
      LookupAt(table[1..], name, k - 1);
    }
  }

  /** `Lookup` fails on a name that no entry holds. */
  lemma LookupMissing(table: seq<(string, string)>, name: string)
    requires forall j :: 0 <= j < |table| ==> table[j].0 != name && table[j].1 != name
    ensures Lookup(table, name) == None
  {
  }

  /** The month number of the k-th entry, found by name. */
  lemma MonthCodeAt(name: string, k: nat)
    requires k < |MonthNames| && (MonthNames[k].0 == name || MonthNames[k].1 == name)
    requires forall j :: 0 <= j < k ==> MonthNames[j].0 != name && MonthNames[j].1 != name
    ensures MonthCode(name) == Some(MonthNumber(k))
  {
    LookupAt(MonthNames, name, k);
  }

  /** Some entries of the table. */
  lemma MonthNumberExamples()
    ensures MonthNumber(0) == "01" && MonthNumber(2) == "03" && MonthNumber(4) == "05"
  {
  }

  lemma MonthCodeJan()
    ensures MonthCode("jan") == Some(MonthNumber(0))
  {
    MonthCodeAt("jan", 0);
  }

  lemma MonthCodeMai()
    ensures MonthCode("mai") == Some(MonthNumber(4))
  {
    MonthCodeAt("mai", 4);
  }

  lemma MonthCodeMaio()
    ensures MonthCode("maio") == Some(MonthNumber(4))
  {
    MonthCodeAt("maio", 4);
  }

  /** Only the accented spelling of March is a key. */
  lemma MonthCodeMarch()
    ensures MonthCode("março") == Some(MonthNumber(2)) && MonthCode("marco") == None
  {
    MonthCodeAt("março", 2);
    MarcoMissing("marco");
  }

  lemma MarcoMissing(name: string)
    requires name == "marco"
    ensures Lookup(MonthNames, name) == None
  {
    assert name[3] == 'c' && "março"[3] == 'ç';
    forall j | 0 <= j < |MonthNames| ensures MonthNames[j].0 != name && MonthNames[j].1 != name {
      assert |MonthNames[j].0| == 3;
    }
    LookupMissing(MonthNames, name);
  }

  /** `s[i..i+n]` exists and consists of ASCII digits. */
  predicate DigitsAt(s: string, i: int, n: int) {
    0 <= i && 0 <= n && i + n <= |s| && AllIn(s[i..i + n], Digit)
  }

  /** `^\d{4}-\d{2}$` */
  predicate IsYearDashMonth(s: string) {
    |s| == 7 && DigitsAt(s, 0, 4) && s[4] == '-' && DigitsAt(s, 5, 2)
  }

  /** `^\d{4}/\d{2}$` */
  predicate IsYearSlashMonth(s: string) {
    |s| == 7 && DigitsAt(s, 0, 4) && s[4] == '/' && DigitsAt(s, 5, 2)
  }

  /** `^\d{2}/\d{4}$` */
  predicate IsMonthSlashYear(s: string) {
    |s| == 7 && DigitsAt(s, 0, 2) && s[2] == '/' && DigitsAt(s, 3, 4)
  }

  /** `str.replace` of one character by another. */
  function ReplaceChar(s: string, from: char, to: char): (r: string)
    ensures |r| == |s|
    ensures forall i :: 0 <= i < |s| ==> r[i] == (if s[i] == from then to else s[i])
  {
    seq(|s|, i requires 0 <= i < |s| => if s[i] == from then to else s[i])
  }

  /** `re.match(r'^(\w+)/(\d{2,4})$', t)`, returning its two groups. */
  function MatchNameSlashYear(t: string): (m: Option<(string, string)>)
    ensures m.Some? ==> var (name, year) := m.value;
      t == name + "/" + year && name != "" && AllIn(name, Word) && 2 <= |year| <= 4 && AllIn(year, Digit)
  {
    var w := RunLength(t, Word);
    if 0 < w < |t| && t[w] == '/' && 2 <= |t| - w - 1 <= 4 && AllIn(t[w + 1..], Digit) then
      assert t == t[..w] + "/" + t[w + 1..];
      Some((t[..w], t[w + 1..]))
    else None
  }

  /** The match above is the only way to read `t` as `name/year`. */
  lemma MatchNameSlashYearComplete(name: string, year: string)
    requires name != "" && AllIn(name, Word) && 2 <= |year| <= 4 && AllIn(year, Digit)
    ensures MatchNameSlashYear(name + "/" + year) == Some((name, year))
  {
    var t := name + "/" + year;
    RunLengthStops(t, Word, |name|);
    assert t[..|name|] == name && t[|name| + 1..] == year;
  }

  /** `re.match(r'^(\d{4})\s+(\w+)$', t)`, returning its two groups. */
  function MatchYearSpaceName(t: string): (m: Option<(string, string)>)
    ensures m.Some? ==> var (year, name) := m.value;
      |year| == 4 && AllIn(year, Digit) && name != "" && AllIn(name, Word)
      && exists gap :: gap != "" && AllIn(gap, Space) && t == year + gap + name
  {
    if |t| >= 4 && DigitsAt(t, 0, 4) then
      var n := RunLength(t[4..], Space);
      var rest := t[4 + n..];
      if n > 0 && rest != "" && RunLength(rest, Word) == |rest| then
        assert t[4..][..n] == t[4..4 + n];
        assert t == t[..4] + t[4..4 + n] + rest;
        Some((t[..4], rest))
      else None
    else None
  }

  /** The match above is the only way to read `t` as `year gap name`. */
  lemma MatchYearSpaceNameComplete(year: string, gap: string, name: string)
    requires |year| == 4 && AllIn(year, Digit) && gap != "" && AllIn(gap, Space) && name != "" && AllIn(name, Word)
    ensures MatchYearSpaceName(year + gap + name) == Some((year, name))
  {
    var t := year + gap + name;
    assert t[..4] == year && t[4..] == gap + name;
    WordAndSpaceDisjoint(name[0]);
    RunLengthStops(gap + name, Space, |gap|);
    assert t[4 + |gap|..] == name;
    RunLengthAll(name, Word);
  }

  /** A competency key as produced by `parse_competency`: a 4- or 5-digit year,
      a dash and two digits. */
  predicate IsCompetencyKey(r: string) {
    (|r| == 7 || |r| == 8) && AllIn(r[..|r| - 3], Digit) && r[|r| - 3] == '-' && DigitsAt(r, |r| - 2, 2)
  }

  /** Gluing a year and a month with a dash gives a competency key. */
  lemma KeyOf(year: string, month: string)
    requires (|year| == 4 || |year| == 5) && AllIn(year, Digit) && |month| == 2 && AllIn(month, Digit)
    ensures IsCompetencyKey(year + "-" + month)
    ensures (year + "-" + month)[|year| + 1..] == month
  {
    var r := year + "-" + month;
    assert r[..|r| - 3] == year && r[|r| - 2..|r|] == month;
  }

  /** `parse_competency`: canonicalises a competency to `YYYY-MM`. */
  function ParseCompetency(competency: string): (r: Option<string>)
    ensures competency == "" ==> r.None?
    ensures r.Some? ==> IsCompetencyKey(r.value)
  {
    if competency == "" then None else ParseStripped(Strip(competency))
  }

  /** The pattern tests of `parse_competency`, in order, on the stripped text. */
  function ParseStripped(s: string): (r: Option<string>)
    ensures r.Some? ==> IsCompetencyKey(r.value)
  {
    if IsYearDashMonth(s) then
      assert s[..4] == s[0..4] && s[5..] == s[5..7];
      KeyOf(s[..4], s[5..]);
      assert s == s[..4] + "-" + s[5..];
      Some(s)
    else if IsYearSlashMonth(s) then
      assert s[..4] == s[0..4] && s[5..] == s[5..7];
      KeyOf(s[..4], s[5..]);
      assert ReplaceChar(s, '/', '-') == s[..4] + "-" + s[5..];
      Some(ReplaceChar(s, '/', '-'))
    else if IsMonthSlashYear(s) then
      MonthSlashYearKey(s);
      Some(s[3..] + "-" + s[..2])
    else ParseMonthName(Lower(s))
  }

  lemma MonthSlashYearKey(s: string)
    requires IsMonthSlashYear(s)
    ensures IsCompetencyKey(s[3..] + "-" + s[..2])
  {
    assert s[3..] == s[3..7] && s[..2] == s[0..2];
    KeyOf(s[3..], s[..2]);
  }

  /** The year of a `name/year` competency: four digits as written, otherwise "20" prefixed. */
  function CenturyYear(year: string): (r: string)
    requires 2 <= |year| <= 4 && AllIn(year, Digit)
    ensures (|r| == 4 || |r| == 5) && AllIn(r, Digit)
    ensures |year| == 4 ==> r == year
    ensures |year| != 4 ==> r == "20" + year
  {
    if |year| == 4 then year else "20" + year
  }

  /** The two month-name forms of `parse_competency`, on the lower-cased text:
      `name/yy(yy)` is tried first, then `yyyy name`. */
  function ParseMonthName(t: string): (r: Option<string>)
    ensures r.Some? ==> IsCompetencyKey(r.value) && IsMonthNumber(r.value[|r.value| - 2..])
  {
    var first := NameSlashYearForm(t);
    if first.Some? then first else YearSpaceNameForm(t)
  }

  function NameSlashYearForm(t: string): (r: Option<string>)
    ensures r.Some? ==> IsCompetencyKey(r.value) && IsMonthNumber(r.value[|r.value| - 2..])
  {
    match MatchNameSlashYear(t)
    case Some((month, year)) =>
      if MonthCode(month).Some? then
        var code := MonthCode(month).value;
        KeyOf(CenturyYear(year), code);
        Some(CenturyYear(year) + "-" + code)
      else None
    case None => None
  }

  function YearSpaceNameForm(t: string): (r: Option<string>)
    ensures r.Some? ==> IsCompetencyKey(r.value) && IsMonthNumber(r.value[|r.value| - 2..])
  {
    match MatchYearSpaceName(t)
    case Some((year, month)) =>
      if MonthCode(month).Some? then
        var code := MonthCode(month).value;
        KeyOf(year, code);
        Some(year + "-" + code)
      else None
    case None => None
  }

  /** Surrounding whitespace never matters: the input is stripped before any test. */
  lemma ParseCompetencyStrip(competency: string)
    ensures ParseCompetency(Strip(competency)) == ParseCompetency(competency)
  {
    if competency != "" {
      if Strip(competency) == "" {
        ParseStrippedEmpty();
      } else {
        StripIdempotent(competency);
      }
    }
  }

  /** Only whitespace: no pattern matches. */
  lemma ParseStrippedEmpty()
    ensures ParseStripped("") == None
  {
  }

  /** A non-empty string with no surrounding whitespace goes straight to the pattern tests. */
  lemma ParseTrimmed(s: string)
    requires s != "" && !IsSpace(s[0]) && !IsSpace(s[|s| - 1])
    ensures ParseCompetency(s) == ParseStripped(s)
  {
    StripTrimmed(s);
  }

  /** The three numeric spellings of one (year, month) pair all give the same key
      `YYYY-MM`; the month is not range-checked. */
  lemma NumericForms(year: string, month: string)
    requires |year| == 4 && AllIn(year, Digit) && |month| == 2 && AllIn(month, Digit)
    ensures ParseCompetency(year + "-" + month) == Some(year + "-" + month)
    ensures ParseCompetency(year + "/" + month) == Some(year + "-" + month)
    ensures ParseCompetency(month + "/" + year) == Some(year + "-" + month)
  {
    YearDashMonthForm(year, month);
    YearSlashMonthForm(year, month);
    MonthSlashYearForm(year, month);
  }

  lemma YearDashMonthForm(year: string, month: string)
    requires |year| == 4 && AllIn(year, Digit) && |month| == 2 && AllIn(month, Digit)
    ensures ParseCompetency(year + "-" + month) == Some(year + "-" + month)
  {
    var a := year + "-" + month;
    YearDashMonthShape(a, year, month);
    ParseTrimmed(a);
    StrippedYearDashMonth(a);
  }

  lemma YearDashMonthShape(a: string, year: string, month: string)
    requires a == year + "-" + month && |year| == 4 && AllIn(year, Digit) && |month| == 2 && AllIn(month, Digit)
    ensures IsYearDashMonth(a) && !IsSpace(a[0]) && !IsSpace(a[6])
  {
    assert a[0] == year[0] && a[6] == month[1];
    assert a[..4] == year && a[5..] == month;
  }

  lemma YearSlashMonthForm(year: string, month: string)
    requires |year| == 4 && AllIn(year, Digit) && |month| == 2 && AllIn(month, Digit)
    ensures ParseCompetency(year + "/" + month) == Some(year + "-" + month)
  {
    var b := year + "/" + month;
    YearSlashMonthShape(b, year, month);
    ParseTrimmed(b);
    StrippedYearSlashMonth(b);
    SlashReplaced(b, year, month);
  }

  lemma YearSlashMonthShape(b: string, year: string, month: string)
    requires b == year + "/" + month && |year| == 4 && AllIn(year, Digit) && |month| == 2 && AllIn(month, Digit)
    ensures IsYearSlashMonth(b) && !IsSpace(b[0]) && !IsSpace(b[6])
  {
    assert b[0] == year[0] && b[6] == month[1];
    assert b[..4] == year && b[5..] == month;
  }

  /** The `YYYY/MM` branch of the pattern tests. */
  lemma StrippedYearSlashMonth(s: string)
    requires IsYearSlashMonth(s)
    ensures ParseStripped(s) == Some(ReplaceChar(s, '/', '-'))
  {
    assert !IsYearDashMonth(s);
  }

  /** Replacing the slash of `year/month` gives the dashed key. */
  lemma SlashReplaced(b: string, year: string, month: string)
    requires b == year + "/" + month && |year| == 4 && AllIn(year, Digit) && |month| == 2 && AllIn(month, Digit)
    ensures ReplaceChar(b, '/', '-') == year + "-" + month
  {
    var r, k := ReplaceChar(b, '/', '-'), year + "-" + month;
    forall i | 0 <= i < 7 ensures r[i] == k[i] {
      if i < 4 { assert b[i] == year[i] && InClass(year[i], Digit); }
      else if i > 4 { assert b[i] == month[i - 5] && InClass(month[i - 5], Digit); }
    }
  }

  lemma MonthSlashYearForm(year: string, month: string)
    requires |year| == 4 && AllIn(year, Digit) && |month| == 2 && AllIn(month, Digit)
    ensures ParseCompetency(month + "/" + year) == Some(year + "-" + month)
  {
    var c := month + "/" + year;
    assert c[0] == month[0] && c[6] == year[3];
    ParseTrimmed(c);
    assert c[..2] == c[0..2] == month && c[3..] == c[3..7] == year;
    StrippedMonthSlashYear(c);
  }

  /** The `MM/YYYY` branch of the pattern tests. */
  lemma StrippedMonthSlashYear(s: string)
    requires IsMonthSlashYear(s)
    ensures ParseStripped(s) == Some(s[3..] + "-" + s[..2])
  {
    assert s[3..7][1] == s[4];
    assert !IsYearDashMonth(s) && !IsYearSlashMonth(s);
  }

  /** The `YYYY-MM` branch of the pattern tests. */
  lemma StrippedYearDashMonth(s: string)
    requires IsYearDashMonth(s)
    ensures ParseStripped(s) == Some(s)
  {
  }

  /** No range check on the month: "13/2025" is accepted as "2025-13". */
  lemma MonthThirteenAccepted()
    ensures ParseCompetency("13" + "/" + "2025") == Some("2025" + "-" + "13")
  {
    MonthSlashYearForm("2025", "13");
  }

  /** Every key of the `YYYY-MM` shape it produces is a fixed point. */
  lemma ParseCompetencyFixedPoint(competency: string)
    requires ParseCompetency(competency).Some? && |ParseCompetency(competency).value| == 7
    ensures ParseCompetency(ParseCompetency(competency).value) == ParseCompetency(competency)
  {
    KeyFixedPoint(ParseCompetency(competency).value);
  }

  lemma KeyFixedPoint(r: string)
    requires IsCompetencyKey(r) && |r| == 7
    ensures ParseCompetency(r) == Some(r)
  {
    assert r[..|r| - 3] == r[0..4] && r[|r| - 2..|r|] == r[5..7];
    assert r[0..4][0] == r[0];
    ParseTrimmed(r);
    StrippedYearDashMonth(r);
  }

  /** Text that matches none of the numeric patterns can only match a month-name form. */
  lemma StrippedFallsToNames(s: string)
    requires !IsYearDashMonth(s) && !IsYearSlashMonth(s) && !IsMonthSlashYear(s)
    ensures ParseStripped(s) == ParseMonthName(Lower(s))
  {
  }

  /** Every numeric pattern starts with a digit. */
  lemma NonDigitStartNotNumeric(s: string)
    requires s != "" && !IsDigit(s[0])
    ensures !IsYearDashMonth(s) && !IsYearSlashMonth(s) && !IsMonthSlashYear(s)
  {
    if |s| == 7 {
      assert s[0..4][0] == s[0] && s[0..2][0] == s[0];
    }
  }

  /** The `name/year` form once its pattern has matched. */
  lemma NameSlashYearFormOf(t: string, name: string, year: string)
    requires MatchNameSlashYear(t) == Some((name, year))
    ensures NameSlashYearForm(t) == (if MonthCode(name).Some? then Some(CenturyYear(year) + "-" + MonthCode(name).value) else None)
  {
  }

  /** The `year name` form once its pattern has matched. */
  lemma YearSpaceNameFormOf(t: string, year: string, name: string)
    requires MatchYearSpaceName(t) == Some((year, name))
    ensures YearSpaceNameForm(t) == (if MonthCode(name).Some? then Some(year + "-" + MonthCode(name).value) else None)
  {
  }

  lemma NameSlashYearFormNone(t: string)
    requires MatchNameSlashYear(t) == None
    ensures NameSlashYearForm(t) == None
  {
  }

  lemma YearSpaceNameFormNone(t: string)
    requires MatchYearSpaceName(t) == None
    ensures YearSpaceNameForm(t) == None
  {
  }

  lemma LowerOfNameSlashYear(name: string, year: string)
    requires Lower(name) == name && AllIn(year, Digit)
    ensures Lower(name + "/" + year) == name + "/" + year
  {
    LowerAppend(name, "/" + year);
  }

  lemma LowerOfYearSpaceName(year: string, name: string)
    requires Lower(name) == name && AllIn(year, Digit)
    ensures Lower(year + " " + name) == year + " " + name
  {
    LowerAppend(year + " ", name);
  }

  /** A month name followed by a slash and a year of 2 to 4 digits; a year that is
      not 4 digits long is prefixed with "20". */
  lemma MonthNameSlashYear(name: string, year: string)
    requires MonthCode(name).Some? && 2 <= |year| <= 4 && AllIn(year, Digit)
    ensures ParseCompetency(name + "/" + year) == Some(CenturyYear(year) + "-" + MonthCode(name).value)
  {
    var s := name + "/" + year;
    MonthNameLowerWord(name);
    NameSlashYearShape(name, year);
    ParseTrimmed(s);
    NonDigitStartNotNumeric(s);
    StrippedFallsToNames(s);
    NameSlashYearFormOf(s, name, year);
  }

  lemma NameSlashYearShape(name: string, year: string)
    requires name != "" && AllIn(name, Word) && !IsDigit(name[0]) && Lower(name) == name
    requires 2 <= |year| <= 4 && AllIn(year, Digit)
    ensures var s := name + "/" + year;
      s != "" && !IsSpace(s[0]) && !IsSpace(s[|s| - 1]) && !IsDigit(s[0])
      && Lower(s) == s && MatchNameSlashYear(s) == Some((name, year))
  {
    var s := name + "/" + year;
    WordAndSpaceDisjoint(name[0]);
    assert s[0] == name[0] && s[|s| - 1] == year[|year| - 1];
    LowerOfNameSlashYear(name, year);
    MatchNameSlashYearComplete(name, year);
  }

  /** A four-digit year, whitespace, and a month name. */
  lemma YearSpaceMonthName(year: string, name: string)
    requires MonthCode(name).Some? && |year| == 4 && AllIn(year, Digit)
    ensures ParseCompetency(year + " " + name) == Some(year + "-" + MonthCode(name).value)
  {
    var s := year + " " + name;
    MonthNameLowerWord(name);
    YearSpaceNameShape(year, name);
    YearSpaceNameMatch(year, name);
    ParseTrimmed(s);
    StrippedFallsToNames(s);
    NameSlashYearFormNone(s);
    YearSpaceNameFormOf(s, year, name);
  }

  lemma YearSpaceNameShape(year: string, name: string)
    requires name != "" && AllIn(name, Word) && Lower(name) == name
    requires |year| == 4 && AllIn(year, Digit)
    ensures var s := year + " " + name;
      s != "" && !IsSpace(s[0]) && !IsSpace(s[|s| - 1])
      && !IsYearDashMonth(s) && !IsYearSlashMonth(s) && !IsMonthSlashYear(s)
  {
    var s := year + " " + name;
    WordAndSpaceDisjoint(name[|name| - 1]);
    assert s[0] == year[0] && s[|s| - 1] == name[|name| - 1];
    assert s[4] == ' ';
    if |s| == 7 {
      assert s[2] == year[2];
    }
  }

  lemma YearSpaceNameMatch(year: string, name: string)
    requires name != "" && AllIn(name, Word) && Lower(name) == name
    requires |year| == 4 && AllIn(year, Digit)
    ensures var s := year + " " + name;
      Lower(s) == s && MatchNameSlashYear(s) == None && MatchYearSpaceName(s) == Some((year, name))
  {
    LowerOfYearSpaceName(year, name);
    NotNameSlashYear(year, " " + name);
    MatchYearSpaceNameComplete(year, " ", name);
  }

  /** Four digits followed by a character that is neither a word character nor
      a slash are not read as `name/year`. */
  lemma NotNameSlashYear(year: string, rest: string)
    requires |year| == 4 && AllIn(year, Digit) && rest != "" && rest[0] != '/' && !IsWordChar(rest[0])
    ensures MatchNameSlashYear(year + rest) == None
  {
    var t := year + rest;
    assert t[..4] == year && t[4] == rest[0];
    RunLengthStops(t, Word, 4);
  }

  /** A five-digit year (what a three-digit year becomes) is not accepted back. */
  lemma FiveDigitYearRejected(year: string, month: string)
    requires |year| == 5 && AllIn(year, Digit) && |month| == 2 && AllIn(month, Digit)
    ensures ParseCompetency(year + "-" + month) == None
  {
    var s := year + "-" + month;
    assert s[0] == year[0] && s[7] == month[1];
    ParseTrimmed(s);
    FiveDigitKeyFallsToNames(year, month);
    FiveDigitKeyNoNameMatch(year, month);
    NameSlashYearFormNone(s);
    YearSpaceNameFormNone(s);
  }

  lemma FiveDigitKeyFallsToNames(year: string, month: string)
    requires |year| == 5 && AllIn(year, Digit) && |month| == 2 && AllIn(month, Digit)
    ensures ParseStripped(year + "-" + month) == ParseMonthName(year + "-" + month)
  {
    var s := year + "-" + month;
    assert |s| == 8;
    StrippedFallsToNames(s);
    var l := Lower(s);
    forall i | 0 <= i < |s| ensures l[i] == s[i] {
      assert s[i] == '-' || IsDigit(s[i]) by {
        if i < 5 { assert s[i] == year[i]; } else if i > 5 { assert s[i] == month[i - 6]; }
      }
    }
    assert l == s;
  }

  lemma FiveDigitKeyNoNameMatch(year: string, month: string)
    requires |year| == 5 && AllIn(year, Digit) && |month| == 2 && AllIn(month, Digit)
    ensures MatchNameSlashYear(year + "-" + month) == None
    ensures MatchYearSpaceName(year + "-" + month) == None
  {
    var s := year + "-" + month;
    assert s[..5] == year && s[5] == '-';
    RunLengthStops(s, Word, 5);
    assert s[4..][0] == year[4];
    RunLengthStops(s[4..], Space, 0);
  }

  /** A lower-case word that is not a month name, followed by a slash and a year. */
  lemma UnknownMonthName(name: string, year: string)
    requires name != "" && AllIn(name, Word) && !IsDigit(name[0]) && Lower(name) == name && MonthCode(name).None?
    requires |year| == 4 && AllIn(year, Digit)
    ensures ParseCompetency(name + "/" + year) == None
  {
    var s := name + "/" + year;
    WordAndSpaceDisjoint(name[0]);
    assert s[0] == name[0] && s[|s| - 1] == year[3];
    ParseTrimmed(s);
    NonDigitStartNotNumeric(s);
    StrippedFallsToNames(s);
    LowerOfNameSlashYear(name, year);
    MatchNameSlashYearComplete(name, year);
    NameSlashYearFormOf(s, name, year);
    assert !DigitsAt(s, 0, 4) by { assert s[0..4][0] == name[0]; }
    YearSpaceNameFormNone(s);
  }

  /** A three-digit year is prefixed with "20" too, giving a five-digit year that
      `parse_competency` itself no longer accepts (`FiveDigitYearRejected`). */
  lemma ThreeDigitYearPrefixed()
    ensures ParseCompetency("mai" + "/" + "202") == Some("20202" + "-" + MonthNumber(4))
  {
    MonthCodeMai();
    MonthNameSlashYear("mai", "202");
    CenturyYearThreeDigits();
  }

  lemma CenturyYearThreeDigits()
    ensures CenturyYear("202") == "20202"
  {
    assert "20" + "202" == "20202";
  }

  /** The unaccented "marco" is not a month name. */
  lemma MarcoRejected()
    ensures ParseCompetency("marco" + "/" + "2025") == None
  {
    MonthCodeMarch();
    MarcoIsLowerWord();
    UnknownMonthName("marco", "2025");
  }

  lemma MarcoIsLowerWord()
    ensures "marco" != "" && AllIn("marco", Word) && !IsDigit("marco"[0]) && Lower("marco") == "marco"
    ensures AllIn("2025", Digit)
  {
  }

  /** The examples of the unit tests that the code agrees with. */
  lemma ParseCompetencyExamples()
    ensures ParseCompetency("2025" + "-" + "05") == Some("2025" + "-" + "05")
    ensures ParseCompetency("2025" + "/" + "05") == Some("2025" + "-" + "05")
    ensures ParseCompetency("05" + "/" + "2025") == Some("2025" + "-" + "05")
    ensures ParseCompetency("maio" + "/" + "2025") == Some("2025" + "-" + MonthNumber(4))
    ensures ParseCompetency("jan" + "/" + "2025") == Some("2025" + "-" + MonthNumber(0))
    ensures ParseCompetency("2025" + " " + "maio") == Some("2025" + "-" + MonthNumber(4))
    ensures ParseCompetency("") == None
  {
    NumericForms("2025", "05");
    MaioExamples();
    JanExample();
  }

  lemma MaioExamples()
    ensures ParseCompetency("maio" + "/" + "2025") == Some("2025" + "-" + MonthNumber(4))
    ensures ParseCompetency("2025" + " " + "maio") == Some("2025" + "-" + MonthNumber(4))
  {
    MaioSlashExample();
    MaioSpaceExample();
  }

  lemma MaioSlashExample()
    ensures ParseCompetency("maio" + "/" + "2025") == Some("2025" + "-" + MonthNumber(4))
  {
    MonthCodeMaio();
    MonthSlashYearRead("maio" + "/" + "2025", "maio", "2025", MonthNumber(4));
  }

  lemma MaioSpaceExample()
    ensures ParseCompetency("2025" + " " + "maio") == Some("2025" + "-" + MonthNumber(4))
  {
    MonthCodeMaio();
    YearSpaceMonthRead("2025" + " " + "maio", "2025", "maio", MonthNumber(4));
  }

  lemma MonthSlashYearRead(s: string, name: string, year: string, code: string)
    requires s == name + "/" + year && MonthCode(name) == Some(code) && |year| == 4 && AllIn(year, Digit)
    ensures ParseCompetency(s) == Some(year + "-" + code)
  {
    MonthNameSlashYear(name, year);
  }

  lemma YearSpaceMonthRead(s: string, year: string, name: string, code: string)
    requires s == year + " " + name && MonthCode(name) == Some(code) && |year| == 4 && AllIn(year, Digit)
    ensures ParseCompetency(s) == Some(year + "-" + code)
  {
    YearSpaceMonthName(year, name);
  }

  lemma JanExample()
    ensures ParseCompetency("jan" + "/" + "2025") == Some("2025" + "-" + MonthNumber(0))
  {
    MonthCodeJan();
    MonthNameSlashYear("jan", "2025");
  }

  // ---------------------------------------------------------------------
  // re.search for the patterns of extract_employee_name_from_query and
  // extract_competency_from_query
  // ---------------------------------------------------------------------

  /** The search patterns of the two extractors; each has one group. */
  datatype Pattern =
    | ParenName                   // \(([A-Z][a-z]+\s+[A-Z][a-z]+)\)
    | WordThenName(word: string)  // <word>\s+([A-Z][a-z]+\s+[A-Z][a-z]+)
    | BareName                    // ([A-Z][a-z]+\s+[A-Z][a-z]+)
    | WordSlashDigits             // (\w+/\d{2,4})
    | YearDashMonth               // (\d{4}-\d{2})
    | MonthSlashYear              // (\d{2}/\d{4})
    | YearSlashMonth              // (\d{4}/\d{2})
    | WordSpaceYear               // (\w+\s+\d{4})

  /** Length of a `[A-Z][a-z]+` match at the start of `s`; 0 when there is none. */
  function CapWord(s: string): (n: nat)
    ensures n <= |s|
    ensures n > 0 ==> n >= 2 && IsAsciiUpper(s[0]) && AllIn(s[1..n], AsciiLowercase)
    ensures 0 < n < |s| ==> !IsAsciiLower(s[n])
  {
    if |s| > 0 && IsAsciiUpper(s[0]) && RunLength(s[1..], AsciiLowercase) > 0 then
      assert s[1..][..RunLength(s[1..], AsciiLowercase)] == s[1..1 + RunLength(s[1..], AsciiLowercase)];
      1 + RunLength(s[1..], AsciiLowercase)
    else 0
  }

  /** Length of a `[A-Z][a-z]+\s+[A-Z][a-z]+` match at the start of `s`; 0 when there is
      none. Each greedy run is followed by a class it excludes, so backtracking never
      finds another match. */
  function FullName(s: string): (n: nat)
    ensures n <= |s|
    ensures n > 0 ==> n >= 5 && IsAsciiUpper(s[0]) && IsAsciiLower(s[n - 1])
  {
    var a := CapWord(s);
    if a == 0 then 0
    else
      var g := RunLength(s[a..], Space);
      if g == 0 then 0
      else
        var b := CapWord(s[a + g..]);
        if b == 0 then 0
        else
          assert s[a + g..][b - 1] == s[a + g + b - 1];
          assert s[a + g..][1..b][b - 2] == s[a + g..][b - 1];
          a + g + b
  }

  /** Group 1 of `pattern` matched at index `i` of `s` (Python's `re.match` at `pos=i`). */
  function MatchAt(s: string, p: Pattern, i: nat): (g: Option<string>)
    requires i <= |s|
  {
    match p
    case ParenName => ParenNameAt(s, i)
    case WordThenName(word) => WordThenNameAt(s, word, i)
    case BareName => BareNameAt(s, i)
    case WordSlashDigits => WordSlashDigitsAt(s, i)
    case YearDashMonth => FixedAt(s, i, 4, '-', 2)
    case MonthSlashYear => FixedAt(s, i, 2, '/', 4)
    case YearSlashMonth => FixedAt(s, i, 4, '/', 2)
    case WordSpaceYear => WordSpaceYearAt(s, i)
  }

  function ParenNameAt(s: string, i: nat): (g: Option<string>)
    requires i <= |s|
    ensures g.Some? ==> OccursAt(s, g.value, i + 1)
  {
    if i < |s| && s[i] == '(' then
      var n := FullName(s[i + 1..]);
      if n > 0 && i + 1 + n < |s| && s[i + 1 + n] == ')' then Some(s[i + 1..i + 1 + n]) else None
    else None
  }

  function WordThenNameAt(s: string, word: string, i: nat): (g: Option<string>)
    requires i <= |s|
    ensures g.Some? ==> exists k :: i <= k && OccursAt(s, g.value, k)
  {
    if OccursAt(s, word, i) then
      var j := i + |word|;
      var m := RunLength(s[j..], Space);
      var n := FullName(s[j + m..]);
      if m > 0 && n > 0 then
        var g := s[j + m..j + m + n];
        SliceOccurs(s, j + m, j + m + n);
        assert i <= j + m && OccursAt(s, g, j + m);
        Some(g)
      else None
    else None
  }

  lemma SliceOccurs(s: string, a: int, b: int)
    requires 0 <= a <= b <= |s|
    ensures OccursAt(s, s[a..b], a)
  {
  }

  function BareNameAt(s: string, i: nat): (g: Option<string>)
    requires i <= |s|
    ensures g.Some? ==> OccursAt(s, g.value, i)
  {
    var n := FullName(s[i..]);
    if n > 0 then Some(s[i..i + n]) else None
  }

  function WordSlashDigitsAt(s: string, i: nat): (g: Option<string>)
    requires i <= |s|
    ensures g.Some? ==> OccursAt(s, g.value, i)
  {
    var w := RunLength(s[i..], Word);
    if w > 0 && i + w < |s| && s[i + w] == '/' then
      var d := RunLength(s[i + w + 1..], Digit);
      if d >= 2 then Some(s[i..i + w + 1 + (if d < 4 then d else 4)]) else None
    else None
  }

  /** `\d{a}<sep>\d{b}` at index `i`. */
  function FixedAt(s: string, i: nat, a: nat, sep: char, b: nat): (g: Option<string>)
    requires i <= |s|
    ensures g.Some? ==> OccursAt(s, g.value, i)
  {
    if DigitsAt(s, i, a) && i + a < |s| && s[i + a] == sep && DigitsAt(s, i + a + 1, b) then
      Some(s[i..i + a + 1 + b])
    else None
  }

  function WordSpaceYearAt(s: string, i: nat): (g: Option<string>)
    requires i <= |s|
    ensures g.Some? ==> OccursAt(s, g.value, i)
  {
    var w := RunLength(s[i..], Word);
    var m := RunLength(s[i + w..], Space);
    if w > 0 && m > 0 && DigitsAt(s, i + w + m, 4) then Some(s[i..i + w + m + 4]) else None
  }

  /** The index of the first `Some` in `ms`: the leftmost position a search stops at. */
  function FirstSome<T>(ms: seq<Option<T>>): (r: Option<nat>)
    ensures r.Some? ==> r.value < |ms| && ms[r.value].Some? && forall j :: 0 <= j < r.value ==> ms[j].None?
    ensures r.None? ==> forall j :: 0 <= j < |ms| ==> ms[j].None?
  {
    if ms == [] then None
    else if ms[0].Some? then Some(0)
    else
      var r := FirstSome(ms[1..]);
      if r.Some? then Some(r.value + 1) else None
  }

  /** The outcome of trying `p` at every index of `s`, the end included. */
  function MatchesAt(s: string, p: Pattern): (ms: seq<Option<string>>)
    ensures |ms| == |s| + 1 && forall k :: 0 <= k <= |s| ==> ms[k] == MatchAt(s, p, k)
  {
    seq(|s| + 1, k requires 0 <= k <= |s| => MatchAt(s, p, k))
  }

  /** `re.search(pattern, s)`: group 1 of the leftmost match. */
  function Search(s: string, p: Pattern): (g: Option<string>)
    ensures g.Some? ==>
      exists k :: 0 <= k <= |s| && MatchAt(s, p, k) == g && forall j :: 0 <= j < k ==> MatchAt(s, p, j).None?
    ensures g.None? ==> forall k :: 0 <= k <= |s| ==> MatchAt(s, p, k).None?
  {
    var ms := MatchesAt(s, p);
    var r := FirstSome(ms);
    if r.Some? then ms[r.value] else None
  }

  /** `MatchAt` on a given pattern is that pattern's matcher. */
  lemma MatchAtIs(s: string, p: Pattern, i: nat)
    requires i <= |s|
    ensures p == WordSpaceYear ==> MatchAt(s, p, i) == WordSpaceYearAt(s, i)
    ensures p == WordSlashDigits ==> MatchAt(s, p, i) == WordSlashDigitsAt(s, i)
  {
  }

  /** A match at index `i` lies in the text at or after `i`. */
  lemma MatchAtOccurs(s: string, p: Pattern, i: nat)
    requires i <= |s| && MatchAt(s, p, i).Some?
    ensures exists k :: i <= k && OccursAt(s, MatchAt(s, p, i).value, k)
  {
  }

  /** A search result is a substring of the searched text. */
  lemma SearchFound(s: string, p: Pattern)
    requires Search(s, p).Some?
    ensures Contains(s, Search(s, p).value)
  {
    var k :| 0 <= k <= |s| && MatchAt(s, p, k) == Search(s, p);
    MatchAtOccurs(s, p, k);
    var a :| k <= a && OccursAt(s, Search(s, p).value, a);
    ContainsAt(s, Search(s, p).value, a);
  }

  /** The search stops at the first index where the pattern matches. */
  lemma SearchLeftmost(s: string, p: Pattern, k: nat)
    requires k <= |s| && MatchAt(s, p, k).Some?
    requires forall j :: 0 <= j < k ==> MatchAt(s, p, j).None?
    ensures Search(s, p) == MatchAt(s, p, k)
  {
    var ms := MatchesAt(s, p);
    FirstSomeAt(ms, k);
  }

  /** The first `Some` is at `k` when `ms[k]` is one and nothing before it is. */
  lemma FirstSomeAt<T>(ms: seq<Option<T>>, k: nat)
    requires k < |ms| && ms[k].Some? && forall j :: 0 <= j < k ==> ms[j].None?
    ensures FirstSome(ms) == Some(k)
  {
    var r := FirstSome(ms);
    assert r.Some?;
    assert !(r.value < k) && !(k < r.value);
  }

  /** A pattern that matches nowhere is not found. */
  lemma SearchMissing(s: string, p: Pattern)
    requires forall k :: 0 <= k <= |s| ==> MatchAt(s, p, k).None?
    ensures Search(s, p).None?
  {
  }

  // ---------------------------------------------------------------------
  // extract_employee_name_from_query
  // ---------------------------------------------------------------------

  /** The employees the assistant knows by name. */
  const KnownNames: seq<string> := ["Ana Souza", "Bruno Lima"]

  /** The lower-cased names a regex match is checked against. */
  const KnownNamesLower: seq<string> := ["ana souza", "bruno lima"]

  /** The regex patterns tried, in order, when no known name occurs in the query. */
  const NamePatterns: seq<Pattern> :=
    [ParenName, WordThenName("do"), WordThenName("da"), WordThenName("funcionário"), BareName]

  /** `extract_employee_name_from_query`: the full names, then the first names, are
      looked for in the lower-cased query; a first name stands for its full name. */
  function ExtractEmployeeName(query: string): (r: Option<string>)
    ensures r.None? || r.value in KnownNames
    ensures r.Some? <==> Contains(Lower(query), "ana") || Contains(Lower(query), "bruno")
    ensures var q := Lower(query);
      Contains(q, "ana souza") ==> r == Some("Ana Souza")
    ensures var q := Lower(query);
      !Contains(q, "ana souza") && Contains(q, "bruno lima") ==> r == Some("Bruno Lima")
    ensures var q := Lower(query);
      !Contains(q, "ana souza") && !Contains(q, "bruno lima") && Contains(q, "ana") ==> r == Some("Ana Souza")
    ensures var q := Lower(query);
      !Contains(q, "ana") && Contains(q, "bruno") ==> r == Some("Bruno Lima")
  {
    var q := Lower(query);
    if Contains(q, "ana souza") then
      FullNameHoldsFirstName(q);
      Some("Ana Souza")
    else if Contains(q, "bruno lima") then
      FullNameHoldsFirstName(q);
      Some("Bruno Lima")
    else if Contains(q, "ana") then Some("Ana Souza")
    else if Contains(q, "bruno") then Some("Bruno Lima")
    else
      NameByPatternUnreachable(query, NamePatterns);
      None
  }

  /** The pattern loop: the first leftmost match, stripped, whose lower-case form is a
      known name. */
  function NameByPattern(query: string, patterns: seq<Pattern>): (r: Option<string>)
    ensures r.Some? ==> Contains(query, r.value) && Lower(r.value) in KnownNamesLower
  {
    if patterns == [] then None
    else
      var m := Search(query, patterns[0]);
      if m.Some? && Lower(Strip(m.value)) in KnownNamesLower then
        SearchFound(query, patterns[0]);
        StripContained(m.value);
        ContainsTransitive(query, m.value, Strip(m.value));
        Some(Strip(m.value))
      else NameByPattern(query, patterns[1..])
  }

  /** The pattern loop can only accept a name whose first name the query already
      contains, so once the substring tests have failed it finds nothing. */
  lemma NameByPatternUnreachable(query: string, patterns: seq<Pattern>)
    ensures NameByPattern(query, patterns).Some? ==> Contains(Lower(query), "ana") || Contains(Lower(query), "bruno")
  {
    var r := NameByPattern(query, patterns);
    if r.Some? {
      ContainsLower(query, r.value);
      FullNameHoldsFirstName(Lower(query));
    }
  }

  /** Each known full name contains its first name. */
  lemma FullNameHoldsFirstName(q: string)
    ensures Contains(q, "ana souza") ==> Contains(q, "ana")
    ensures Contains(q, "bruno lima") ==> Contains(q, "bruno")
  {
    assert OccursAt("ana souza", "ana", 0);
    ContainsAt("ana souza", "ana", 0);
    assert OccursAt("bruno lima", "bruno", 0);
    ContainsAt("bruno lima", "bruno", 0);
    if Contains(q, "ana souza") {
      ContainsTransitive(q, "ana souza", "ana");
    }
    if Contains(q, "bruno lima") {
      ContainsTransitive(q, "bruno lima", "bruno");
    }
  }

  // ---------------------------------------------------------------------
  // extract_competency_from_query
  // ---------------------------------------------------------------------

  /** The competency patterns, in the order they are tried. */
  const CompetencyPatterns: seq<Pattern> :=
    [WordSlashDigits, YearDashMonth, MonthSlashYear, YearSlashMonth, WordSpaceYear]

  /** `extract_competency_from_query`. */
  function ExtractCompetency(query: string): (r: Option<string>)
    ensures r.Some? ==> Contains(query, r.value)
    ensures r.None? <==> forall k :: 0 <= k < |CompetencyPatterns| ==> Search(query, CompetencyPatterns[k]).None?
    ensures r.Some? ==>
      exists k :: 0 <= k < |CompetencyPatterns| && (forall j :: 0 <= j < k ==> Search(query, CompetencyPatterns[j]).None?)
        && Search(query, CompetencyPatterns[k]).Some? && r.value == Strip(Search(query, CompetencyPatterns[k]).value)
  {
    FirstGroup(query, CompetencyPatterns)
  }

  /** The pattern loop: the stripped group of the leftmost match of the first pattern
      that matches anywhere in the query. */
  function FirstGroup(query: string, patterns: seq<Pattern>): (r: Option<string>)
    ensures r.Some? ==> Contains(query, r.value)
    ensures r.Some? <==> exists k :: 0 <= k < |patterns| && Search(query, patterns[k]).Some?
    ensures r.Some? ==>
      exists k :: 0 <= k < |patterns| && (forall j :: 0 <= j < k ==> Search(query, patterns[j]).None?)
        && Search(query, patterns[k]).Some? && r.value == Strip(Search(query, patterns[k]).value)
  {
    if patterns == [] then None
    else
      var m := Search(query, patterns[0]);
      if m.Some? then
        SearchFound(query, patterns[0]);
        StripContained(m.value);
        ContainsTransitive(query, m.value, Strip(m.value));
        Some(Strip(m.value))
      else
        var r := FirstGroup(query, patterns[1..]);
        assert forall k :: 1 <= k < |patterns| ==> patterns[1..][k - 1] == patterns[k];
        if r.Some? then
          var k' :| 0 <= k' < |patterns[1..]| && (forall j :: 0 <= j < k' ==> Search(query, patterns[1..][j]).None?)
            && Search(query, patterns[1..][k']).Some? && r.value == Strip(Search(query, patterns[1..][k']).value);
          assert forall j :: 0 <= j < k' + 1 ==> Search(query, patterns[j]).None? by {
            forall j | 0 <= j < k' + 1 ensures Search(query, patterns[j]).None? {
              if j > 0 { assert patterns[j] == patterns[1..][j - 1]; }
            }
          }
          assert patterns[k' + 1] == patterns[1..][k'];
          r
        else r
  }

  /** `\d{2}/\d{4}` and `\d{4}/\d{2}` are special cases of `\w+/\d{2,4}`: wherever one
      of them matches, the first pattern matches too (the same text for `MM/YYYY`). */
  lemma SlashFormsSubsumed(s: string, i: nat)
    requires i <= |s|
    ensures MatchAt(s, MonthSlashYear, i).Some? ==> MatchAt(s, WordSlashDigits, i) == MatchAt(s, MonthSlashYear, i)
    ensures MatchAt(s, YearSlashMonth, i).Some? ==> MatchAt(s, WordSlashDigits, i).Some?
  {
    if MatchAt(s, MonthSlashYear, i).Some? {
      SlashRun(s, i, 2, 4);
    }
    if MatchAt(s, YearSlashMonth, i).Some? {
      SlashRun(s, i, 4, 2);
    }
  }

  /** Digits, a slash and at least two digits are read by `\w+/\d{2,4}`, which takes
      up to four digits after the slash. */
  lemma SlashRun(s: string, i: nat, a: nat, b: nat)
    requires i <= |s| && a > 0 && 2 <= b <= 4 && FixedAt(s, i, a, '/', b).Some?
    ensures WordSlashDigitsAt(s, i).Some?
    ensures b == 4 ==> WordSlashDigitsAt(s, i) == FixedAt(s, i, a, '/', b)
  {
    assert s[i..][..a] == s[i..i + a];
    RunLengthStops(s[i..], Word, a);
    var t := s[i + a + 1..];
    assert t[..b] == s[i + a + 1..i + a + 1 + b];
    var d := RunLength(t, Digit);
    assert d >= b;
  }

  /** Wherever a slash form matches, `\w+/\d{2,4}` finds a match too. */
  lemma SlashSearchSubsumed(s: string)
    ensures Search(s, MonthSlashYear).Some? ==> Search(s, WordSlashDigits).Some?
    ensures Search(s, YearSlashMonth).Some? ==> Search(s, WordSlashDigits).Some?
  {
    if Search(s, MonthSlashYear).Some? {
      var k :| 0 <= k <= |s| && MatchAt(s, MonthSlashYear, k) == Search(s, MonthSlashYear);
      SlashFormsSubsumed(s, k);
    }
    if Search(s, YearSlashMonth).Some? {
      var k :| 0 <= k <= |s| && MatchAt(s, YearSlashMonth, k) == Search(s, YearSlashMonth);
      SlashFormsSubsumed(s, k);
    }
  }

  /** The `MM/YYYY` and `YYYY/MM` patterns never decide the result: the extraction is
      the same with only the three other patterns. */
  lemma ExtractCompetencyThreePatterns(query: string)
    ensures ExtractCompetency(query) == FirstGroup(query, [WordSlashDigits, YearDashMonth, WordSpaceYear])
  {
    var tail := [WordSpaceYear];
    assert CompetencyPatterns == [WordSlashDigits] + ([YearDashMonth] + ([MonthSlashYear] + ([YearSlashMonth] + tail)));
    assert [WordSlashDigits, YearDashMonth, WordSpaceYear] == [WordSlashDigits] + ([YearDashMonth] + tail);
    if Search(query, WordSlashDigits).Some? {
      FirstGroupHit(query, WordSlashDigits, [YearDashMonth] + ([MonthSlashYear] + ([YearSlashMonth] + tail)), [YearDashMonth] + tail);
    } else {
      FirstGroupSkip(query, WordSlashDigits, [YearDashMonth] + ([MonthSlashYear] + ([YearSlashMonth] + tail)));
      FirstGroupSkip(query, WordSlashDigits, [YearDashMonth] + tail);
      if Search(query, YearDashMonth).Some? {
        FirstGroupHit(query, YearDashMonth, [MonthSlashYear] + ([YearSlashMonth] + tail), tail);
      } else {
        FirstGroupSkip(query, YearDashMonth, [MonthSlashYear] + ([YearSlashMonth] + tail));
        FirstGroupSkip(query, YearDashMonth, tail);
        SlashSearchSubsumed(query);
        FirstGroupSkip(query, MonthSlashYear, [YearSlashMonth] + tail);
        FirstGroupSkip(query, YearSlashMonth, tail);
      }
    }
  }

  lemma FirstGroupSkip(query: string, p: Pattern, ps: seq<Pattern>)
    requires Search(query, p).None?
    ensures FirstGroup(query, [p] + ps) == FirstGroup(query, ps)
  {
    assert ([p] + ps)[1..] == ps;
  }

  lemma FirstGroupHit(query: string, p: Pattern, ps: seq<Pattern>, qs: seq<Pattern>)
    requires Search(query, p).Some?
    ensures FirstGroup(query, [p] + ps) == FirstGroup(query, [p] + qs) == Some(Strip(Search(query, p).value))
  {
  }

  /** `\w+/\d{2,4}` needs a slash, `\d{4}-\d{2}` a dash. */
  lemma SeparatorNeeded(s: string)
    ensures '/' !in s ==> Search(s, WordSlashDigits).None?
    ensures '-' !in s ==> Search(s, YearDashMonth).None?
  {
    forall k | 0 <= k <= |s| && MatchAt(s, WordSlashDigits, k).Some? ensures '/' in s {
      assert s[k + RunLength(s[k..], Word)] == '/';
    }
    forall k | 0 <= k <= |s| && MatchAt(s, YearDashMonth, k).Some? ensures '-' in s {
      assert s[k + 4] == '-';
    }
  }

  /** In `a b year...`, where `a` and `b` are words and `b` does not start with a
      digit, `\w+\s+\d{4}` first matches at `b`. */
  lemma WordSpaceYearAfterWord(a: string, b: string, year: string, rest: string)
    requires a != "" && AllIn(a, Word) && b != "" && AllIn(b, Word) && !IsDigit(b[0])
    requires |year| == 4 && AllIn(year, Digit)
    ensures Search(a + " " + b + " " + year + rest, WordSpaceYear) == Some(b + " " + year)
  {
    var s := a + " " + b + " " + year + rest;
    WordSpaceYearNotInWord(s, a, b + " " + year + rest);
    forall j | 0 <= j <= |a| + 1 ensures MatchAt(s, WordSpaceYear, j) == WordSpaceYearAt(s, j) {
      MatchAtIs(s, WordSpaceYear, j);
    }
    assert s == (a + " ") + b + " " + year + rest;
    WordSpaceYearFound(s, a + " ", b, year, rest);
    SearchLeftmost(s, WordSpaceYear, |a| + 1);
  }

  /** `\w+\s+\d{4}` does not match inside a word followed by one space and a non-digit. */
  lemma WordSpaceYearNotInWord(s: string, a: string, t: string)
    requires s == a + " " + t && AllIn(a, Word) && t != "" && !IsDigit(t[0]) && !IsSpace(t[0])
    ensures forall j :: 0 <= j <= |a| ==> WordSpaceYearAt(s, j).None?
  {
    GapIsOneSpace(s, a, t);
    forall j | 0 <= j <= |a| ensures WordSpaceYearAt(s, j).None? {
      WordRunEndsAtGap(s, a, t, j);
      assert j + (|a| - j) == |a|;
    }
  }

  lemma GapIsOneSpace(s: string, a: string, t: string)
    requires s == a + " " + t && t != "" && !IsDigit(t[0]) && !IsSpace(t[0])
    ensures RunLength(s[|a|..], Space) == 1 && !DigitsAt(s, |a| + 1, 4)
  {
    assert s[|a|..][..1] == " " && s[|a|..][1] == t[0];
    RunLengthStops(s[|a|..], Space, 1);
    if |a| + 5 <= |s| {
      assert s[|a| + 1..|a| + 5][0] == t[0];
    }
  }

  lemma WordRunEndsAtGap(s: string, a: string, t: string, j: int)
    requires s == a + " " + t && AllIn(a, Word) && 0 <= j <= |a|
    ensures RunLength(s[j..], Word) == |a| - j
  {
    assert s[j..][..|a| - j] == a[j..] && s[j..][|a| - j] == ' ';
    RunLengthStops(s[j..], Word, |a| - j);
  }

  /** `\w+\s+\d{4}` at the start of `b year`. */
  lemma WordSpaceYearFound(s: string, pre: string, b: string, year: string, rest: string)
    requires s == pre + b + " " + year + rest
    requires b != "" && AllIn(b, Word) && |year| == 4 && AllIn(year, Digit)
    ensures WordSpaceYearAt(s, |pre|) == Some(b + " " + year)
  {
    var k := |pre|;
    assert s[k..] == b + (" " + year + rest);
    RunLengthPrefix(b, " " + year + rest, Word);
    assert s[k + |b|..] == " " + (year + rest);
    WordAndSpaceDisjoint(year[0]);
    RunLengthPrefix(" ", year + rest, Space);
    assert s[k + |b| + 1..k + |b| + 5] == year;
    assert s[k..k + |b| + 5] == b + " " + year;
  }

  /** In `pre name/year`, where `pre` has no slash and ends in whitespace, `\w+/\d{2,4}`
      first matches at `name`. */
  lemma WordSlashDigitsAfter(pre: string, name: string, year: string)
    requires pre != "" && IsSpace(pre[|pre| - 1]) && '/' !in pre
    requires name != "" && AllIn(name, Word) && 2 <= |year| <= 4 && AllIn(year, Digit)
    ensures Search(pre + name + "/" + year, WordSlashDigits) == Some(name + "/" + year)
  {
    var s := pre + name + "/" + year;
    forall j | 0 <= j < |pre| ensures MatchAt(s, WordSlashDigits, j).None? {
      WordSlashDigitsNotInPrefix(s, pre, j);
    }
    WordSlashDigitsAtName(s, pre, name, year);
    SearchLeftmost(s, WordSlashDigits, |pre|);
  }

  /** `\w+/` cannot start in a slash-free prefix that ends in whitespace. */
  lemma WordSlashDigitsNotInPrefix(s: string, pre: string, j: nat)
    requires |pre| <= |s| && s[..|pre|] == pre && pre != "" && IsSpace(pre[|pre| - 1]) && '/' !in pre
    requires j < |pre|
    ensures MatchAt(s, WordSlashDigits, j).None?
  {
    var w := RunLength(s[j..], Word);
    WordAndSpaceDisjoint(pre[|pre| - 1]);
    assert s[j..][|pre| - 1 - j] == pre[|pre| - 1];
    assert j + w < |pre|;
    assert s[j + w] == pre[j + w];
  }

  lemma WordSlashDigitsAtName(s: string, pre: string, name: string, year: string)
    requires s == pre + name + "/" + year
    requires name != "" && AllIn(name, Word) && 2 <= |year| <= 4 && AllIn(year, Digit)
    ensures MatchAt(s, WordSlashDigits, |pre|) == Some(name + "/" + year)
  {
    var k := |pre|;
    assert s[k..] == name + "/" + year;
    assert s[k..][..|name|] == name && s[k..][|name|] == '/';
    RunLengthStops(s[k..], Word, |name|);
    assert s[k + |name| + 1..] == year;
    RunLengthAll(year, Digit);
    assert s[k..k + |name| + 1 + |year|] == name + "/" + year;
  }

  /** A year followed by a month name is not read as one: the word before the year
      is taken instead ("de 2025" out of "Salário de 2025 maio"). */
  lemma WordBeforeYearExtracted()
    ensures ExtractCompetency("Salário" + " " + "de" + " " + "2025" + " maio") == Some("de" + " " + "2025")
  {
    var q := "Salário" + " " + "de" + " " + "2025" + " maio";
    ExampleWords();
    WordBeforeYearRead(q, "Salário", "de", "2025", " maio");
  }

  lemma WordBeforeYearRead(q: string, a: string, b: string, year: string, rest: string)
    requires q == a + " " + b + " " + year + rest && '/' !in q && '-' !in q
    requires a != "" && AllIn(a, Word) && b != "" && AllIn(b, Word) && !IsDigit(b[0])
    requires |year| == 4 && AllIn(year, Digit) && !IsSpace(b[0]) && !IsSpace(year[3])
    ensures ExtractCompetency(q) == Some(b + " " + year)
  {
    WithoutSeparators(q);
    WordSpaceYearAfterWord(a, b, year, rest);
    var g := b + " " + year;
    assert g[0] == b[0] && g[|g| - 1] == year[3];
    StripTrimmed(g);
  }

  lemma ExampleWords()
    ensures var q := "Salário" + " " + "de" + " " + "2025" + " maio"; '/' !in q && '-' !in q
    ensures AllIn("Salário", Word) && AllIn("de", Word) && AllIn("2025", Digit)
  {
  }

  /** Text without a slash or a dash can only match `\w+\s+\d{4}`. */
  lemma WithoutSeparators(query: string)
    requires '/' !in query && '-' !in query
    ensures ExtractCompetency(query) == (if Search(query, WordSpaceYear).Some? then Some(Strip(Search(query, WordSpaceYear).value)) else None)
  {
    SeparatorNeeded(query);
    ExtractCompetencyThreePatterns(query);
    var tail := [WordSpaceYear];
    assert [WordSlashDigits, YearDashMonth, WordSpaceYear] == [WordSlashDigits] + ([YearDashMonth] + tail);
    FirstGroupSkip(query, WordSlashDigits, [YearDashMonth] + tail);
    FirstGroupSkip(query, YearDashMonth, tail);
  }

  /** A month name with a slash and a year is taken whole. */
  lemma MonthSlashYearExtracted()
    ensures ExtractCompetency("Salário de " + "maio" + "/" + "2025") == Some("maio" + "/" + "2025")
  {
    WordSlashDigitsAfter("Salário de ", "maio", "2025");
    assert CompetencyPatterns == [WordSlashDigits] + CompetencyPatterns[1..];
    StripTrimmed("maio" + "/" + "2025");
  }

  /** A query without either first name gives no name. */
  lemma NoNameInQuery()
    ensures ExtractEmployeeName("Salário de maio") == None
  {
    var q := Lower("Salário de maio");
    assert 'n' !in q by {
      forall i | 0 <= i < |q| ensures q[i] != 'n' {
        assert q[i] == LowerChar("Salário de maio"[i]);
      }
    }
    NotContainsMissingChar(q, "ana", 'n');
    NotContainsMissingChar(q, "bruno", 'n');
  }

  /** The first name is looked for as a bare substring: "semana" names Ana Souza. */
  lemma FirstNameInsideWord()
    ensures ExtractEmployeeName("semana") == Some("Ana Souza")
  {
    assert Lower("semana") == "semana";
    NotContainsMissingChar("semana", "ana souza", ' ');
    NotContainsMissingChar("semana", "bruno lima", 'b');
    assert OccursAt("semana", "ana", 3);
    ContainsAt("semana", "ana", 3);
  }

  /** A full name is found in any letter case. */
  lemma FullNameFound(prefix: string)
    requires 'z' !in Lower(prefix) && 'Z' !in prefix
    ensures ExtractEmployeeName(prefix + "Bruno Lima") == Some("Bruno Lima")
  {
    var q := Lower(prefix + "Bruno Lima");
    LowerAppend(prefix, "Bruno Lima");
    assert Lower("Bruno Lima") == "bruno lima";
    assert q == Lower(prefix) + "bruno lima";
    assert 'z' !in q;
    NotContainsMissingChar(q, "ana souza", 'z');
    assert OccursAt(q, "bruno lima", |Lower(prefix)|);
    ContainsAt(q, "bruno lima", |Lower(prefix)|);
  }

  // ---------------------------------------------------------------------
  // parse_date_br
  // ---------------------------------------------------------------------

  /** A calendar date as `datetime.date` holds it. */
  datatype Date = Date(year: int, month: int, day: int)

  predicate IsLeapYear(y: int) {
    y % 4 == 0 && (y % 100 != 0 || y % 400 == 0)
  }

  function DaysInMonth(y: int, m: int): (n: int)
    requires 1 <= m <= 12
    ensures 28 <= n <= 31
  {
    if m == 2 then (if IsLeapYear(y) then 29 else 28)
    else if m == 4 || m == 6 || m == 9 || m == 11 then 30
    else 31
  }

  /** A date `datetime` accepts: years 1 to 9999, real months and days. */
  predicate ValidDate(d: Date) {
    1 <= d.year <= 9999 && 1 <= d.month <= 12 && 1 <= d.day <= DaysInMonth(d.year, d.month)
  }

  /** The argument of `parse_date_br`: a `str`, or any other object, of which only
      `str()` is used. */
  datatype DateArg = Text(text: string) | Other(repr: string)

  /** `str(date_str)`. */
  function ArgString(arg: DateArg): string {
    match arg
    case Text(s) => s
    case Other(repr) => repr
  }

  /** `re.match(r'\d{4}-\d{2}-\d{2}', s)`: the text starts with a `YYYY-MM-DD` shape. */
  predicate HasIsoDatePrefix(s: string) {
    |s| >= 10 && DigitsAt(s, 0, 4) && s[4] == '-' && DigitsAt(s, 5, 2) && s[7] == '-' && DigitsAt(s, 8, 2)
  }

  /** `datetime.strptime(s, '%Y-%m-%d')` on text that starts with a `YYYY-MM-DD` shape:
      the whole text must be consumed and the date must exist. */
  function StrptimeIsoDate(s: string): (d: Option<Date>)
    requires HasIsoDatePrefix(s)
    ensures d.Some? ==> ValidDate(d.value) && |s| == 10
  {
    var d := Date(DigitsValue(s[0..4]), DigitsValue(s[5..7]), DigitsValue(s[8..10]));
    if |s| == 10 && ValidDate(d) then Some(d) else None
  }

  /** `date.strftime('%d/%m/%Y')`; the year is not zero-padded, as with the C library. */
  function FormatDateBr(d: Date): (r: string)
    requires ValidDate(d)
  {
    PadDigits(d.day, 2) + "/" + PadDigits(d.month, 2) + "/" + NatToString(d.year)
  }

  /** `date.isoformat()`: `YYYY-MM-DD`. */
  function FormatDateIso(d: Date): (r: string)
    requires ValidDate(d)
    ensures HasIsoDatePrefix(r) && |r| == 10
  {
    var r := PadDigits(d.year, 4) + "-" + PadDigits(d.month, 2) + "-" + PadDigits(d.day, 2);
    assert r[0..4] == PadDigits(d.year, 4) && r[5..7] == PadDigits(d.month, 2) && r[8..10] == PadDigits(d.day, 2);
    r
  }

  /** `parse_date_br`. `isoParsed` is what `datetime.fromisoformat` makes of the text
      (with `Z` replaced by `+00:00`), `None` when it raises. */
  function ParseDateBr(arg: DateArg, isoParsed: Option<Date>): (r: string)
    requires isoParsed.Some? ==> ValidDate(isoParsed.value)
    ensures r == ArgString(arg) || exists d :: ValidDate(d) && r == FormatDateBr(d)
  {
    match arg
    case Other(repr) => repr
    case Text(s) =>
      if HasIsoDatePrefix(s) then
        var d := StrptimeIsoDate(s);
        if d.Some? then FormatDateBr(d.value) else s
      else if 'T' in s then
        if isoParsed.Some? then FormatDateBr(isoParsed.value) else s
      else s
  }

  /** Reads back `DD/MM/YYYY`: the inverse of `FormatDateBr` for four-digit years. */
  function ParseDateText(r: string): (d: Option<Date>)
  {
    if |r| == 10 && DigitsAt(r, 0, 2) && r[2] == '/' && DigitsAt(r, 3, 2) && r[5] == '/' && DigitsAt(r, 6, 4) then
      Some(Date(DigitsValue(r[6..10]), DigitsValue(r[3..5]), DigitsValue(r[0..2])))
    else None
  }

  /** `str()` of a year from 1000 on has four digits. */
  lemma FourDigitYear(y: int)
    requires 1000 <= y <= 9999
    ensures |NatToString(y)| == 4
  {
    NatToStringLength(y);
    NatToStringLength(y / 10);
    NatToStringLength(y / 100);
    NatToStringLength(y / 1000);
  }

  lemma NatToStringLength(n: nat)
    ensures n < 10 ==> |NatToString(n)| == 1
    ensures n >= 10 ==> |NatToString(n)| == |NatToString(n / 10)| + 1
  {
  }

  /** A date written `DD/MM/YYYY` reads back as the same date. */
  lemma DateBrRoundTrip(d: Date)
    requires ValidDate(d) && d.year >= 1000
    ensures ParseDateText(FormatDateBr(d)) == Some(d)
  {
    FourDigitYear(d.year);
    var dd, mm, yy := PadDigits(d.day, 2), PadDigits(d.month, 2), NatToString(d.year);
    var r := FormatDateBr(d);
    assert r[0..2] == dd && r[3..5] == mm && r[6..10] == yy;
  }

  /** An ISO date is rewritten as `DD/MM/YYYY`. */
  lemma IsoDateConverted(d: Date, isoParsed: Option<Date>)
    requires ValidDate(d) && (isoParsed.Some? ==> ValidDate(isoParsed.value))
    ensures ParseDateBr(Text(FormatDateIso(d)), isoParsed) == FormatDateBr(d)
  {
    var s := FormatDateIso(d);
    assert s[0..4] == PadDigits(d.year, 4) && s[5..7] == PadDigits(d.month, 2) && s[8..10] == PadDigits(d.day, 2);
  }

  /** An ISO date followed by anything (a `00:00:00` time, as `str()` of a pandas
      timestamp gives) makes `strptime` fail, and the text comes back unchanged. */
  lemma TrailingTextUnchanged(d: Date, rest: string, isoParsed: Option<Date>)
    requires ValidDate(d) && rest != "" && (isoParsed.Some? ==> ValidDate(isoParsed.value))
    ensures ParseDateBr(Text(FormatDateIso(d) + rest), isoParsed) == FormatDateIso(d) + rest
  {
    var s := FormatDateIso(d) + rest;
    assert s[..10] == FormatDateIso(d);
    assert DigitsAt(s, 0, 4) && DigitsAt(s, 5, 2) && DigitsAt(s, 8, 2) by {
      assert s[0..4] == FormatDateIso(d)[0..4] && s[5..7] == FormatDateIso(d)[5..7] && s[8..10] == FormatDateIso(d)[8..10];
    }
  }

  /** A date that does not exist (a 30th of February) is returned unchanged. */
  lemma NonexistentDateUnchanged(s: string, isoParsed: Option<Date>)
    requires HasIsoDatePrefix(s) && DigitsValue(s[5..7]) == 2 && DigitsValue(s[8..10]) == 30
    requires isoParsed.Some? ==> ValidDate(isoParsed.value)
    ensures ParseDateBr(Text(s), isoParsed) == s
  {
  }

  /** Anything that is not a string is converted with `str()`. */
  lemma NonStringArgument(repr: string, isoParsed: Option<Date>)
    requires isoParsed.Some? ==> ValidDate(isoParsed.value)
    ensures ParseDateBr(Other(repr), isoParsed) == repr
  {
  }

  /** The unit-test example: 2025-05-28 becomes 28/05/2025. */
  lemma ParseDateBrExample()
    ensures ParseDateBr(Text("2025" + "-" + "05" + "-" + "28"), None) == "28" + "/" + "05" + "/" + "2025"
  {
    var d := Date(2025, 5, 28);
    ExampleDigits();
    assert FormatDateIso(d) == "2025" + "-" + "05" + "-" + "28";
    IsoDateConverted(d, None);
  }

  lemma ExampleDigits()
    ensures PadDigits(2025, 4) == "2025" && PadDigits(5, 2) == "05" && PadDigits(28, 2) == "28"
    ensures NatToString(2025) == "2025"
  {
    YearDigits();
  }

  lemma YearDigits()
    ensures PadDigits(2025, 4) == "2025" && NatToString(2025) == "2025"
  {
  }

  // ---------------------------------------------------------------------
  // clean_query
  // ---------------------------------------------------------------------

  /** The characters `clean_query` keeps: `[\w\s?!.,/\-()]`. */
  predicate IsQueryChar(c: char) {
    IsWordChar(c) || IsSpace(c) || c in "?!.,/-()"
  }

  /** Every character is kept by `clean_query`. */
  predicate AllQueryChars(s: string) {
    forall i :: 0 <= i < |s| ==> IsQueryChar(s[i])
  }

  /** Whitespace occurs only as single plain spaces. */
  predicate SingleSpaced(s: string) {
    forall i :: 0 <= i < |s| && IsSpace(s[i]) ==> s[i] == ' ' && (i + 1 < |s| ==> !IsSpace(s[i + 1]))
  }

  /** What `clean_query` returns: kept characters, single spaces, nothing around. */
  predicate IsCleanQuery(s: string) {
    AllQueryChars(s) && SingleSpaced(s) && (s == "" || (!IsSpace(s[0]) && !IsSpace(s[|s| - 1])))
  }

  /** `re.sub(r'[^\w\s\?\!\.\,\/\-\(\)]', ' ', query)`. */
  function Sanitize(q: string): (r: string)
    ensures |r| == |q| && AllQueryChars(r)
    ensures forall i :: 0 <= i < |q| ==> r[i] == (if IsQueryChar(q[i]) then q[i] else ' ')
  {
    seq(|q|, i requires 0 <= i < |q| => if IsQueryChar(q[i]) then q[i] else ' ')
  }

  /** `re.sub(r'\s+', ' ', s)`. */
  function CollapseSpaces(s: string): (r: string)
    ensures SingleSpaced(r)
    ensures AllQueryChars(s) ==> AllQueryChars(r)
    ensures r == "" <==> s == ""
    ensures r != "" ==> IsSpace(r[0]) == IsSpace(s[0])
    decreases |s|
  {
    if s == [] then []
    else if IsSpace(s[0]) then
      var n := RunLength(s, Space);
      var rest := CollapseSpaces(s[n..]);
      assert AllQueryChars(s) ==> AllQueryChars(s[n..]);
      [' '] + rest
    else
      var rest := CollapseSpaces(s[1..]);
      assert AllQueryChars(s) ==> AllQueryChars(s[1..]);
      [s[0]] + rest
  }

  /** `clean_query`. */
  function CleanQuery(query: string): (r: string)
    ensures IsCleanQuery(r)
  {
    var t := CollapseSpaces(Sanitize(query));
    var r := Strip(t);
    CleanSlice(t);
    r
  }

  /** Stripping keeps the characters and the spacing. */
  lemma CleanSlice(t: string)
    requires AllQueryChars(t) && SingleSpaced(t)
    ensures AllQueryChars(Strip(t)) && SingleSpaced(Strip(t))
  {
    var i, j :| 0 <= i <= j <= |t| && Strip(t) == t[i..j] && AllIn(t[..i], Space) && AllIn(t[j..], Space);
    CleanSliceAt(t, i, j);
  }

  lemma CleanSliceAt(t: string, i: int, j: int)
    requires AllQueryChars(t) && SingleSpaced(t) && 0 <= i <= j <= |t|
    ensures AllQueryChars(t[i..j]) && SingleSpaced(t[i..j])
  {
    var r := t[i..j];
    forall k | 0 <= k < |r| ensures IsQueryChar(r[k]) {
      assert r[k] == t[i + k];
    }
    forall k | 0 <= k < |r| && IsSpace(r[k]) ensures r[k] == ' ' && (k + 1 < |r| ==> !IsSpace(r[k + 1])) {
      assert r[k] == t[i + k];
      if k + 1 < |r| {
        assert r[k + 1] == t[i + k + 1];
      }
    }
  }

  /** Collapsing leaves single-spaced text alone. */
  lemma {:induction false} CollapseSingleSpaced(s: string)
    requires SingleSpaced(s)
    ensures CollapseSpaces(s) == s
    decreases |s|
  {
    if s != [] {
      assert SingleSpaced(s[1..]);
      if IsSpace(s[0]) {
        RunLengthStops(s, Space, 1);
        CollapseSingleSpaced(s[1..]);
        assert s == [' '] + s[1..];
      } else {
        CollapseSingleSpaced(s[1..]);
        assert s == [s[0]] + s[1..];
      }
    }
  }

  /** The texts `clean_query` leaves unchanged are exactly the clean ones. */
  lemma CleanQueryFixedPoints(q: string)
    ensures CleanQuery(q) == q <==> IsCleanQuery(q)
  {
    if IsCleanQuery(q) {
      assert Sanitize(q) == q;
      CollapseSingleSpaced(q);
      StripTrimmed(q);
    }
  }

  /** Cleaning twice is cleaning once. */
  lemma CleanQueryIdempotent(q: string)
    ensures CleanQuery(CleanQuery(q)) == CleanQuery(q)
  {
    CleanQueryFixedPoints(CleanQuery(q));
  }

  /** Length of the longest prefix of `s` holding no whitespace. */
  function InkLength(s: string): (n: nat)
    ensures n <= |s|
    ensures forall i :: 0 <= i < n ==> !IsSpace(s[i])
    ensures n < |s| ==> IsSpace(s[n])
  {
    if |s| > 0 && !IsSpace(s[0]) then 1 + InkLength(s[1..]) else 0
  }

  lemma {:induction false} InkLengthStops(s: string, n: nat)
    requires n <= |s| && (forall i :: 0 <= i < n ==> !IsSpace(s[i])) && (n < |s| ==> IsSpace(s[n]))
    ensures InkLength(s) == n
    decreases n
  {
    if n > 0 {
      InkLengthStops(s[1..], n - 1);
    }
  }

  /** `str.split()`: the maximal runs of non-whitespace characters, in order. */
  function Words(s: string): (ws: seq<string>)
    ensures forall k :: 0 <= k < |ws| ==> ws[k] != "" && forall i :: 0 <= i < |ws[k]| ==> !IsSpace(ws[k][i])
    decreases |s|
  {
    if s == [] then []
    else if IsSpace(s[0]) then Words(s[1..])
    else
      var n := InkLength(s);
      [s[..n]] + Words(s[n..])
  }

  /** Every word of the split is a substring of the text. */
  lemma {:induction false} WordsContained(s: string)
    ensures forall k :: 0 <= k < |Words(s)| ==> Contains(s, Words(s)[k])
    decreases |s|
  {
    if s == [] {
    } else if IsSpace(s[0]) {
      WordsContained(s[1..]);
      ContainedInSuffix(s, s[1..], 1, Words(s[1..]));
    } else {
      var n := InkLength(s);
      WordsContained(s[n..]);
      ContainedInSuffix(s, s[n..], n, Words(s[n..]));
      assert s[0..n] == s[..n];
      ContainsAt(s, s[..n], 0);
      ConsContained(s, s[..n], Words(s[n..]));
    }
  }

  lemma ConsContained(s: string, w: string, ws: seq<string>)
    requires Contains(s, w) && forall k :: 0 <= k < |ws| ==> Contains(s, ws[k])
    ensures forall k :: 0 <= k < |[w] + ws| ==> Contains(s, ([w] + ws)[k])
  {
    forall k | 0 <= k < |[w] + ws| ensures Contains(s, ([w] + ws)[k]) {
      if k > 0 { assert ([w] + ws)[k] == ws[k - 1]; }
    }
  }

  /** What a suffix of a text contains, the text contains. */
  lemma ContainedInSuffix(s: string, u: string, j: nat, ws: seq<string>)
    requires j <= |s| && u == s[j..]
    requires forall k :: 0 <= k < |ws| ==> Contains(u, ws[k])
    ensures forall k :: 0 <= k < |ws| ==> Contains(s, ws[k])
  {
    assert s[j..j + |u|] == u;
    ContainsAt(s, u, j);
    forall k | 0 <= k < |ws| ensures Contains(s, ws[k]) {
      ContainsTransitive(s, u, ws[k]);
    }
  }

  /** `' '.join(ws)`. */
  function JoinWords(ws: seq<string>): string {
    if ws == [] then "" else if |ws| == 1 then ws[0] else ws[0] + " " + JoinWords(ws[1..])
  }

  /** Leading whitespace does not change the words. */
  lemma {:induction false} WordsSkipSpaces(s: string, n: nat)
    requires n <= |s| && AllIn(s[..n], Space)
    ensures Words(s) == Words(s[n..])
    decreases n
  {
    if n > 0 {
      assert InClass(s[..n][0], Space);
      assert s[1..][..n - 1] == s[1..n];
      WordsSkipSpaces(s[1..], n - 1);
      assert s[1..][n - 1..] == s[n..];
    }
  }

  /** Trailing whitespace does not change the words. */
  lemma {:induction false} WordsTrailingSpaces(u: string, sp: string)
    requires AllIn(sp, Space)
    ensures Words(u + sp) == Words(u)
    decreases |u|
  {
    if u == [] {
      assert u + sp == sp && sp[..|sp|] == sp && sp[|sp|..] == [];
      WordsSkipSpaces(sp, |sp|);
    } else if IsSpace(u[0]) {
      assert (u + sp)[1..] == u[1..] + sp;
      WordsTrailingSpaces(u[1..], sp);
    } else {
      var m := InkLength(u);
      assert m < |u| + |sp| ==> IsSpace((u + sp)[m]) by {
        if m < |u| + |sp| {
          if m < |u| { assert (u + sp)[m] == u[m]; } else { assert (u + sp)[m] == sp[0]; assert InClass(sp[0], Space); }
        }
      }
      InkLengthStops(u + sp, m);
      assert (u + sp)[..m] == u[..m] && (u + sp)[m..] == u[m..] + sp;
      WordsTrailingSpaces(u[m..], sp);
    }
  }

  /** A run without whitespace followed by whitespace (or nothing) is one word. */
  lemma InkThenWords(w: string, x: string)
    requires w != "" && (forall i :: 0 <= i < |w| ==> !IsSpace(w[i])) && (x == "" || IsSpace(x[0]))
    ensures Words(w + x) == [w] + Words(x)
  {
    var s := w + x;
    assert forall i :: 0 <= i < |w| ==> s[i] == w[i];
    assert |w| < |s| ==> s[|w|] == x[0];
    InkLengthStops(s, |w|);
    assert s[..|w|] == w && s[|w|..] == x;
  }

  /** A text starting with a non-whitespace run collapses after that run. */
  lemma {:induction false} CollapseInk(s: string, m: nat)
    requires m <= |s| && forall i :: 0 <= i < m ==> !IsSpace(s[i])
    ensures CollapseSpaces(s) == s[..m] + CollapseSpaces(s[m..])
    decreases m
  {
    if m > 0 {
      CollapseStep(s);
      CollapseInk(s[1..], m - 1);
      InkSlices(s, m, CollapseSpaces(s[m..]));
    } else {
      assert s[..0] + s[0..] == s;
    }
  }

  lemma CollapseStep(s: string)
    requires s != [] && !IsSpace(s[0])
    ensures CollapseSpaces(s) == [s[0]] + CollapseSpaces(s[1..])
  {
  }

  lemma CollapseSpaceStep(s: string)
    requires s != [] && IsSpace(s[0])
    ensures CollapseSpaces(s) == [' '] + CollapseSpaces(s[RunLength(s, Space)..])
  {
  }

  lemma WordsAfterSpace(x: string)
    ensures Words([' '] + x) == Words(x)
  {
    assert ([' '] + x)[1..] == x;
  }

  lemma InkSlices(s: string, m: nat, x: string)
    requires 0 < m <= |s|
    ensures [s[0]] + (s[1..][..m - 1] + x) == s[..m] + x
    ensures s[1..][m - 1..] == s[m..]
  {
    assert s[..m] == [s[0]] + s[1..m];
  }

  /** Collapsing whitespace keeps the words: every run of whitespace becomes one space and
      every other character stays where it was, in order. */
  lemma {:induction false} CollapseKeepsWords(s: string)
    ensures Words(CollapseSpaces(s)) == Words(s)
    decreases |s|
  {
    if s == [] {
    } else if IsSpace(s[0]) {
      var n := RunLength(s, Space);
      CollapseKeepsWords(s[n..]);
      CollapseSpaceRun(s, n);
    } else {
      var m := InkLength(s);
      CollapseKeepsWords(s[m..]);
      CollapseInkRun(s, m);
    }
  }

  lemma CollapseSpaceRun(s: string, n: nat)
    requires s != [] && IsSpace(s[0]) && n == RunLength(s, Space)
    requires Words(CollapseSpaces(s[n..])) == Words(s[n..])
    ensures Words(CollapseSpaces(s)) == Words(s)
  {
    CollapseSpaceStep(s);
    WordsAfterSpace(CollapseSpaces(s[n..]));
    WordsSkipSpaces(s, n);
  }

  lemma CollapseInkRun(s: string, m: nat)
    requires s != [] && !IsSpace(s[0]) && m == InkLength(s)
    requires Words(CollapseSpaces(s[m..])) == Words(s[m..])
    ensures Words(CollapseSpaces(s)) == Words(s)
  {
    CollapseInk(s, m);
    InkRunShape(s, m);
    InkJoin(s[..m], s[m..], CollapseSpaces(s[m..]));
    TakeDrop(s, m);
  }

  lemma InkRunShape(s: string, m: nat)
    requires s != [] && !IsSpace(s[0]) && m == InkLength(s)
    ensures s[..m] != "" && forall i :: 0 <= i < |s[..m]| ==> !IsSpace(s[..m][i])
    ensures s[m..] == "" || IsSpace(s[m..][0])
    ensures CollapseSpaces(s[m..]) == "" || IsSpace(CollapseSpaces(s[m..])[0])
  {
    var x := s[m..];
    assert x != "" ==> x[0] == s[m];
  }

  lemma TakeDrop(s: string, m: nat)
    requires m <= |s|
    ensures s[..m] + s[m..] == s
  {
  }

  lemma InkJoin(w: string, x: string, cx: string)
    requires w != "" && forall i :: 0 <= i < |w| ==> !IsSpace(w[i])
    requires (x == "" || IsSpace(x[0])) && (cx == "" || IsSpace(cx[0])) && Words(cx) == Words(x)
    ensures Words(w + cx) == Words(w + x)
  {
    InkThenWords(w, cx);
    InkThenWords(w, x);
  }

  /** Stripping keeps the words. */
  lemma StripKeepsWords(t: string)
    ensures Words(Strip(t)) == Words(t)
  {
    var i, j :| 0 <= i <= j <= |t| && Strip(t) == t[i..j] && AllIn(t[..i], Space) && AllIn(t[j..], Space);
    WordsSkipSpaces(t, i);
    assert t[i..] == t[i..j] + t[j..];
    WordsTrailingSpaces(t[i..j], t[j..]);
  }

  /** A clean text is its words joined by single spaces. */
  lemma {:induction false} CleanIsJoined(t: string)
    requires IsCleanQuery(t)
    ensures JoinWords(Words(t)) == t
    decreases |t|
  {
    if t != [] {
      var m := InkLength(t);
      if m == |t| {
        InkThenWords(t, "");
        assert t + "" == t;
      } else {
        CleanTail(t, m);
        CleanIsJoined(t[m + 1..]);
        SplitAtSpace(t, m);
        JoinStep(t[..m], t[m + 1..]);
      }
    }
  }

  /** After the first word of a clean text with more than one word come one space and
      another clean text. */
  lemma CleanTail(t: string, m: nat)
    requires IsCleanQuery(t) && t != [] && m == InkLength(t) && m < |t|
    ensures t[m] == ' ' && IsCleanQuery(t[m + 1..]) && t[m + 1..] != []
  {
    CleanGap(t, m);
    CleanSuffix(t, m + 1);
  }

  lemma CleanGap(t: string, m: nat)
    requires IsCleanQuery(t) && t != [] && m < |t| && IsSpace(t[m])
    ensures m + 1 < |t| && t[m] == ' ' && !IsSpace(t[m + 1])
  {
  }

  lemma CleanSuffix(t: string, k: nat)
    requires IsCleanQuery(t) && k < |t| && !IsSpace(t[k])
    ensures IsCleanQuery(t[k..]) && t[k..] != []
  {
    CleanSliceAt(t, k, |t|);
    assert t[k..|t|] == t[k..];
  }

  /** A word, a space and a text that is its own words joined. */
  lemma JoinStep(w: string, u: string)
    requires w != "" && forall i :: 0 <= i < |w| ==> !IsSpace(w[i])
    requires u != [] && !IsSpace(u[0]) && JoinWords(Words(u)) == u
    ensures JoinWords(Words(w + " " + u)) == w + " " + u
  {
    assert w + " " + u == w + ([' '] + u);
    InkThenWords(w, [' '] + u);
    WordsAfterSpace(u);
    var ws := Words(u);
    assert ws != [];
    assert ([w] + ws)[1..] == ws;
  }

  lemma SplitAtSpace(t: string, m: nat)
    requires m < |t| && t[m] == ' '
    ensures t == t[..m] + " " + t[m + 1..]
  {
  }

  /** `clean_query` is `' '.join(s.split())` of the sanitised text: the words of the
      sanitised query, in order, each whitespace run between them replaced by one space. */
  lemma CleanQueryJoinsWords(query: string)
    ensures Words(CleanQuery(query)) == Words(Sanitize(query))
    ensures CleanQuery(query) == JoinWords(Words(Sanitize(query)))
  {
    var t := CollapseSpaces(Sanitize(query));
    CollapseKeepsWords(Sanitize(query));
    StripKeepsWords(t);
    CleanIsJoined(CleanQuery(query));
  }

  // ---------------------------------------------------------------------
  // format_currency_br
  // ---------------------------------------------------------------------

  /** Digits grouped by threes from the right with `sep` (the `,` format option). */
  function Group(d: string, sep: char): (r: string)
    ensures d != "" ==> r != "" && r[0] == d[0]
    decreases |d|
  {
    if |d| <= 3 then d else Group(d[..|d| - 3], sep) + [sep] + d[|d| - 3..]
  }

  /** `f"{value:,.2f}"` for an amount of `cents` hundredths. */
  function FormatAmount(cents: int): string {
    var m := if cents < 0 then -cents else cents;
    (if cents < 0 then "-" else "") + Group(NatToString(m / 100), ',') + "." + PadDigits(m % 100, 2)
  }

  /** `format_currency_br`: the US-style amount with `,` and `.` exchanged through a
      placeholder `X`. */
  function FormatCurrencyBr(cents: int): (r: string)
  {
    "R$ " + ReplaceChar(ReplaceChar(ReplaceChar(FormatAmount(cents), ',', 'X'), '.', ','), 'X', '.')
  }

  /** The same text, written with Brazilian separators from the start. */
  function BrazilianAmount(cents: int): string {
    var m := if cents < 0 then -cents else cents;
    (if cents < 0 then "-" else "") + Group(NatToString(m / 100), '.') + "," + PadDigits(m % 100, 2)
  }

  /** The three replacements exchange `,` and `.`, since the formatted amount holds no `X`. */
  lemma FormatCurrencyBrSwapsSeparators(cents: int)
    ensures FormatCurrencyBr(cents) == "R$ " + BrazilianAmount(cents)
  {
    var m := if cents < 0 then -cents else cents;
    var sign := if cents < 0 then "-" else "";
    var d := NatToString(m / 100);
    var f := PadDigits(m % 100, 2);
    var a := FormatAmount(cents);
    var b := BrazilianAmount(cents);
    GroupSwapped(d);
    assert a == sign + Group(d, ',') + "." + f;
    assert b == sign + Group(d, '.') + "," + f;
    SwapAll(sign, Group(d, ','), Group(d, '.'), f);
  }

  lemma SwapAll(sign: string, g1: string, g2: string, f: string)
    requires |g1| == |g2| && AllIn(f, Digit) && (sign == "" || sign == "-")
    requires forall k :: 0 <= k < |g1| ==> (g1[k] == ',' && g2[k] == '.') || (IsDigit(g1[k]) && g2[k] == g1[k])
    ensures ReplaceChar(ReplaceChar(ReplaceChar(sign + g1 + "." + f, ',', 'X'), '.', ','), 'X', '.') == sign + g2 + "," + f
  {
    var a := sign + g1 + "." + f;
    var b := sign + g2 + "," + f;
    var r := ReplaceChar(ReplaceChar(ReplaceChar(a, ',', 'X'), '.', ','), 'X', '.');
    assert |r| == |b|;
    forall i | 0 <= i < |a| ensures r[i] == b[i] {
      SwapAt(sign, g1, g2, f, i);
    }
  }

  lemma SwapAt(sign: string, g1: string, g2: string, f: string, i: int)
    requires |g1| == |g2| && AllIn(f, Digit) && (sign == "" || sign == "-")
    requires forall k :: 0 <= k < |g1| ==> (g1[k] == ',' && g2[k] == '.') || (IsDigit(g1[k]) && g2[k] == g1[k])
    requires 0 <= i < |sign + g1 + "." + f|
    ensures var a := sign + g1 + "." + f;
      ReplaceChar(ReplaceChar(ReplaceChar(a, ',', 'X'), '.', ','), 'X', '.')[i] == (sign + g2 + "," + f)[i]
  {
    var a := sign + g1 + "." + f;
    var b := sign + g2 + "," + f;
    if i < |sign| {
      assert a[i] == '-' == b[i];
    } else if i < |sign| + |g1| {
      assert a[i] == g1[i - |sign|] && b[i] == g2[i - |sign|];
    } else if i == |sign| + |g1| {
      assert a[i] == '.' && b[i] == ',';
    } else {
      assert a[i] == f[i - |sign| - |g1| - 1] == b[i];
    }
  }

  /** Grouping with `,` and with `.` puts the separators in the same places. */
  lemma {:induction false} GroupSwapped(d: string)
    requires AllIn(d, Digit)
    ensures |Group(d, ',')| == |Group(d, '.')|
    ensures forall k :: 0 <= k < |Group(d, ',')| ==>
      (Group(d, ',')[k] == ',' && Group(d, '.')[k] == '.') || (IsDigit(Group(d, ',')[k]) && Group(d, '.')[k] == Group(d, ',')[k])
    decreases |d|
  {
    if |d| > 3 {
      var h := d[..|d| - 3];
      var t := d[|d| - 3..];
      GroupSwapped(h);
      var g1, g2 := Group(h, ','), Group(h, '.');
      assert Group(d, ',') == g1 + [','] + t;
      assert Group(d, '.') == g2 + ['.'] + t;
      forall k | 0 <= k < |Group(d, ',')|
        ensures (Group(d, ',')[k] == ',' && Group(d, '.')[k] == '.') || (IsDigit(Group(d, ',')[k]) && Group(d, '.')[k] == Group(d, ',')[k])
      {
        if k < |g1| {
        } else if k == |g1| {
        } else {
          assert Group(d, ',')[k] == t[k - |g1| - 1] == Group(d, '.')[k];
        }
      }
    }
  }

  /** `s` without the occurrences of `c`. */
  function RemoveChar(s: string, c: char): (r: string)
    ensures c !in r
    decreases |s|
  {
    if s == [] then [] else (if s[0] == c then [] else [s[0]]) + RemoveChar(s[1..], c)
  }

  lemma {:induction false} RemoveCharAppend(a: string, b: string, c: char)
    ensures RemoveChar(a + b, c) == RemoveChar(a, c) + RemoveChar(b, c)
    decreases |a|
  {
    if a == [] {
      assert a + b == b;
    } else {
      assert (a + b)[0] == a[0] && (a + b)[1..] == a[1..] + b;
      RemoveCharAppend(a[1..], b, c);
    }
  }

  lemma RemoveCharAbsent(s: string, c: char)
    requires c !in s
    ensures RemoveChar(s, c) == s
    decreases |s|
  {
    if s != [] {
      assert c !in s[1..];
      RemoveCharAbsent(s[1..], c);
    }
  }

  /** Dropping the thousands separators gives the digits back. */
  lemma {:induction false} UngroupGroup(d: string)
    requires AllIn(d, Digit)
    ensures RemoveChar(Group(d, '.'), '.') == d
    decreases |d|
  {
    if |d| <= 3 {
      RemoveCharAbsent(d, '.');
    } else {
      var h, t := d[..|d| - 3], d[|d| - 3..];
      assert AllIn(h, Digit) && AllIn(t, Digit) by {
        assert forall i :: 0 <= i < |h| ==> h[i] == d[i];
        assert forall i :: 0 <= i < |t| ==> t[i] == d[|d| - 3 + i];
      }
      assert Group(d, '.') == (Group(h, '.') + ['.']) + t;
      UngroupGroup(h);
      UngroupStep(h, t);
      assert h + t == d;
    }
  }

  /** One step of the above: the separator before the last three digits is dropped. */
  lemma UngroupStep(h: string, t: string)
    requires RemoveChar(Group(h, '.'), '.') == h && AllIn(t, Digit)
    ensures RemoveChar((Group(h, '.') + ['.']) + t, '.') == h + t
  {
    var g := Group(h, '.');
    RemoveCharAppend(g + ['.'], t, '.');
    RemoveSeparator(g);
    assert '.' !in t by {
      forall i | 0 <= i < |t| ensures t[i] != '.' {
        assert IsDigit(t[i]);
      }
    }
    RemoveCharAbsent(t, '.');
  }

  lemma RemoveSeparator(g: string)
    ensures RemoveChar(g + ['.'], '.') == RemoveChar(g, '.')
  {
    RemoveCharAppend(g, ['.'], '.');
    assert RemoveChar(['.'], '.') == [];
  }

  /** Reads an amount written `R$ [-]D.DDD,CC` back into cents. */
  function ParseCurrencyBr(s: string): (r: Option<int>)
  {
    if |s| >= 3 && s[..3] == "R$ " then ParseAmountBr(s[3..]) else None
  }

  function ParseAmountBr(b: string): (r: Option<int>)
  {
    var neg := b != "" && b[0] == '-';
    var v := ParseMagnitude(if neg then b[1..] else b);
    if v.Some? then var x: int := v.value; Some(if neg then -x else x) else None
  }

  /** Reads `D.DDD,CC` into cents. */
  function ParseMagnitude(m: string): (r: Option<nat>)
  {
    if |m| >= 4 && m[|m| - 3] == ',' && DigitsAt(m, |m| - 2, 2) then
      var whole := RemoveChar(m[..|m| - 3], '.');
      if whole != "" && AllIn(whole, Digit) then Some(DigitsValue(whole) * 100 + DigitsValue(m[|m| - 2..]))
      else None
    else None
  }

  /** No amount is lost or changed by formatting: it reads back exactly. */
  lemma FormatCurrencyBrRoundTrip(cents: int)
    ensures ParseCurrencyBr(FormatCurrencyBr(cents)) == Some(cents)
  {
    FormatCurrencyBrSwapsSeparators(cents);
    var s := FormatCurrencyBr(cents);
    assert s[..3] == "R$ " && s[3..] == BrazilianAmount(cents);
    BrazilianAmountReads(cents);
  }

  lemma BrazilianAmountReads(cents: int)
    ensures ParseAmountBr(BrazilianAmount(cents)) == Some(cents)
  {
    BrazilianAmountShape(cents);
    BrazilianPartsRead(cents);
  }

  lemma BrazilianAmountShape(cents: int)
    ensures var m := if cents < 0 then -cents else cents;
      BrazilianAmount(cents) == (if cents < 0 then "-" else "") + (Group(NatToString(m / 100), '.') + "," + PadDigits(m % 100, 2))
  {
  }

  lemma BrazilianPartsRead(cents: int)
    ensures var m := if cents < 0 then -cents else cents;
      ParseAmountBr((if cents < 0 then "-" else "") + (Group(NatToString(m / 100), '.') + "," + PadDigits(m % 100, 2))) == Some(cents)
  {
    var m := if cents < 0 then -cents else cents;
    CentsRebuilt(m);
    PartsRead(cents, m, NatToString(m / 100), PadDigits(m % 100, 2));
  }

  lemma PartsRead(cents: int, m: nat, d: string, f: string)
    requires m == (if cents < 0 then -cents else cents)
    requires d != "" && AllIn(d, Digit) && |f| == 2 && AllIn(f, Digit)
    requires DigitsValue(d) * 100 + DigitsValue(f) == m
    ensures ParseAmountBr((if cents < 0 then "-" else "") + (Group(d, '.') + "," + f)) == Some(cents)
  {
    var mag := Group(d, '.') + "," + f;
    MagnitudeReads(d, f);
    MagnitudeStartsWithDigit(d, f);
    SignReads(cents < 0, mag, m);
    var x: int := m;
    assert (if cents < 0 then -x else x) == cents;
  }

  lemma MagnitudeStartsWithDigit(d: string, f: string)
    requires d != "" && AllIn(d, Digit)
    ensures IsDigit((Group(d, '.') + "," + f)[0])
  {
    assert (Group(d, '.') + "," + f)[0] == Group(d, '.')[0];
  }

  /** Whole units and cents put back together. */
  lemma CentsRebuilt(m: nat)
    ensures DigitsValue(NatToString(m / 100)) * 100 + DigitsValue(PadDigits(m % 100, 2)) == m
  {
  }

  /** A leading minus sign negates the amount. */
  lemma SignReads(neg: bool, mag: string, m: nat)
    requires mag != "" && IsDigit(mag[0]) && ParseMagnitude(mag) == Some(m)
    ensures var x: int := m; ParseAmountBr((if neg then "-" else "") + mag) == Some(if neg then -x else x)
  {
    var b := (if neg then "-" else "") + mag;
    assert (if neg then b[1..] else b) == mag;
  }

  /** Grouped digits, a comma and two digits read back as their value. */
  lemma MagnitudeReads(d: string, f: string)
    requires d != "" && AllIn(d, Digit) && |f| == 2 && AllIn(f, Digit)
    ensures ParseMagnitude(Group(d, '.') + "," + f) == Some(DigitsValue(d) * 100 + DigitsValue(f))
  {
    UngroupGroup(d);
    MagnitudeOf(Group(d, '.'), f, d);
  }

  lemma MagnitudeOf(g: string, f: string, whole: string)
    requires |f| == 2 && AllIn(f, Digit) && RemoveChar(g, '.') == whole && whole != "" && AllIn(whole, Digit)
    ensures ParseMagnitude(g + "," + f) == Some(DigitsValue(whole) * 100 + DigitsValue(f))
  {
    var mag := g + "," + f;
    assert mag[..|mag| - 3] == g && mag[|mag| - 3] == ',' && mag[|mag| - 2..] == f;
  }

  /** The unit-test example 8418.75, in cents. */
  lemma FormatCurrencyBrExample(cents: int)
    requires cents == 841875
    ensures FormatCurrencyBr(cents) == "R$ " + "8.418" + "," + "75"
  {
    FormatCurrencyBrSwapsSeparators(cents);
    assert cents / 100 == 8418 && cents % 100 == 75;
    assert NatToString(8418) == "8418";
    assert "8418"[..1] == "8" && "8418"[1..] == "418";
    assert Group("8418", '.') == "8.418";
  }

  /** The unit-test example 0, in cents. */
  lemma FormatCurrencyBrZero()
    ensures FormatCurrencyBr(0) == "R$ " + "0" + "," + "00"
  {
    FormatCurrencyBrSwapsSeparators(0);
    assert BrazilianAmount(0) == Group(NatToString(0), '.') + "," + PadDigits(0, 2);
  }

  /** A negative amount keeps its sign in front of the digits. */
  lemma NegativeAmount()
    ensures FormatCurrencyBr(-150) == "R$ " + "-" + "1" + "," + "50"
  {
    FormatCurrencyBrSwapsSeparators(-150);
    assert BrazilianAmount(-150) == "-" + Group(NatToString(1), '.') + "," + PadDigits(50, 2);
    assert NatToString(1) == "1" && PadDigits(50, 2) == "50";
  }
}
