/** The query classifier and answer handlers of `app/query_processor.py`. A query is
    sorted into one of six intents by ordered keyword tests; each intent's handler pulls
    the employee and competency out of the text, asks the record store, and replies with
    either a request for the missing detail, a "not found" text, or an answer with evidence. */
module QueryProcessor {
  import opened Text
  import opened Wrappers
  import opened Utils
  import R = RagSystem

  /** The intents `_identify_query_type` distinguishes. */
  datatype QueryType = NetPay | TotalPeriod | Deduction | PaymentDate | MaxBonus | Unknown

  // ---------------------------------------------------------------------
  // Normalisation and keyword tests
  // ---------------------------------------------------------------------

  /** Soft hyphen, non-breaking hyphen, en dash and em dash: the characters the
      normalisation deletes before matching. */
  predicate IsDropped(c: char) {
    c == '\U{ad}' || c == '\U{2011}' || c == '\U{2013}' || c == '\U{2014}'
  }

  /** The four chained `str.replace(c, '')` calls. */
  function DropDashes(s: string): (r: string)
    ensures |r| <= |s|
    ensures forall i :: 0 <= i < |r| ==> !IsDropped(r[i])
    ensures (forall i :: 0 <= i < |s| ==> !IsDropped(s[i])) ==> r == s
  {
    if s == [] then []
    else
      assert forall i :: 1 <= i < |s| ==> s[i] == s[1..][i - 1];
      (if IsDropped(s[0]) then [] else [s[0]]) + DropDashes(s[1..])
  }

  /** The text the keyword tests look at: dashes deleted, then lower-cased. */
  function NormalizeQuery(query: string): (q: string)
    ensures forall i :: 0 <= i < |q| ==> !IsDropped(q[i])
  {
    var d := DropDashes(query);
    assert forall i :: 0 <= i < |d| ==> !IsDropped(LowerChar(d[i]));
    Lower(d)
  }

  /** `any(word in q for word in words)`. */
  function AnyIn(q: string, words: seq<string>): (b: bool)
    ensures b <==> exists k :: 0 <= k < |words| && Contains(q, words[k])
  {
    if words == [] then false
    else
      assert forall k :: 1 <= k < |words| ==> words[k] == words[1..][k - 1];
      Contains(q, words[0]) || AnyIn(q, words[1..])
  }

  const LiquidWords: seq<string> := ["líquido", "liquido", "lquido", "l\U{ad}quido"]
  /** The first rule's words: the net-pay spellings, then `recebi`, `recebeu`, `quanto`. */
  const NetPayWords: seq<string> := LiquidWords + ["recebi", "recebeu", "quanto"]
  const PeriodWords: seq<string> := ["trimestre", "período", "periodo", "total", "1º", "primeiro"]
  const QuarterWords: seq<string> := ["trimestre", "período", "periodo", "1º", "primeiro"]
  const DeductionWords: seq<string> := ["inss", "irrf", "desconto"]
  const DateWords: seq<string> := ["quando", "data", "pago"]
  const BonusWords: seq<string> := ["maior", "máximo", "maximo", "bônus", "bonus"]

  /** The condition of the "total líquido" rule. */
  predicate LiquidTotalRule(q: string) {
    Contains(q, "total") && AnyIn(q, LiquidWords)
  }

  /** The condition of the rule for "total líquido" written with special characters. */
  predicate QuidoTotalRule(q: string) {
    Contains(q, "total") && Contains(q, "l") && Contains(q, "quido")
  }

  // ---------------------------------------------------------------------
  // _identify_query_type
  // ---------------------------------------------------------------------

  /** `_identify_query_type`: the first rule that fires decides. */
  function IdentifyQueryType(query: string): (r: QueryType)
    ensures r == Classify(NormalizeQuery(query))
  {
    var q := NormalizeQuery(query);
    LiquidTotalRuleSubsumed(q);
    TotalHoldsL(q);
    if AnyIn(q, NetPayWords) then (if AnyIn(q, PeriodWords) then TotalPeriod else NetPay)
    else if LiquidTotalRule(q) && AnyIn(q, QuarterWords) then TotalPeriod
    else if QuidoTotalRule(q) && AnyIn(q, QuarterWords) then TotalPeriod
    else if AnyIn(q, DeductionWords) then Deduction
    else if AnyIn(q, DateWords) then PaymentDate
    else if AnyIn(q, BonusWords) then MaxBonus
    else Unknown
  }

  /** The classifier without its dead parts: the "total líquido" rule removed and the
      special-character rule reduced to `total` and `quido`; `_identify_query_type` agrees
      with it on every normalised query. */
  function Classify(q: string): (r: QueryType)
  {
    if AnyIn(q, NetPayWords) then (if AnyIn(q, PeriodWords) then TotalPeriod else NetPay)
    else if Contains(q, "total") && Contains(q, "quido") && AnyIn(q, QuarterWords) then TotalPeriod
    else if AnyIn(q, DeductionWords) then Deduction
    else if AnyIn(q, DateWords) then PaymentDate
    else if AnyIn(q, BonusWords) then MaxBonus
    else Unknown
  }

  /** The "total líquido" rule can never fire: every text it accepts already fired the first rule. */
  lemma LiquidTotalRuleSubsumed(q: string)
    ensures LiquidTotalRule(q) ==> AnyIn(q, NetPayWords)
  {
    if LiquidTotalRule(q) {
      var k :| 0 <= k < |LiquidWords| && Contains(q, LiquidWords[k]);
      assert NetPayWords[k] == LiquidWords[k];
    }
  }

  /** The `'l' in q` test of the special-character rule is implied by `'total' in q`. */
  lemma TotalHoldsL(q: string)
    ensures Contains(q, "total") ==> Contains(q, "l")
  {
    if Contains(q, "total") {
      assert "total"[4..5] == "l";
      ContainsAt("total", "l", 4);
      ContainsTransitive(q, "total", "l");
    }
  }

  /** The soft-hyphen spelling of "líquido" in the first rule can never match, because
      normalisation deleted every soft hyphen. */
  lemma SoftHyphenEntryDead(query: string)
    ensures !Contains(NormalizeQuery(query), "l\U{ad}quido")
  {
    assert "l\U{ad}quido"[1] == '\U{ad}';
    NotContainsMissingChar(NormalizeQuery(query), "l\U{ad}quido", '\U{ad}');
  }

  /** A text without any of the first rule's words and without `total`+`quido`: deduction
      words take precedence over date words, which take precedence over bonus words. */
  lemma LaterRulesOrder(query: string)
    requires !AnyIn(NormalizeQuery(query), NetPayWords)
    requires !Contains(NormalizeQuery(query), "total")
    ensures AnyIn(NormalizeQuery(query), DeductionWords) ==> IdentifyQueryType(query) == Deduction
    ensures !AnyIn(NormalizeQuery(query), DeductionWords) && AnyIn(NormalizeQuery(query), DateWords)
      ==> IdentifyQueryType(query) == PaymentDate
    ensures IdentifyQueryType(query) == Unknown <==>
      !AnyIn(NormalizeQuery(query), DeductionWords + DateWords + BonusWords)
  {
    var q := NormalizeQuery(query);
    var all := DeductionWords + DateWords + BonusWords;
    if AnyIn(q, all) {
      var k :| 0 <= k < |all| && Contains(q, all[k]);
      if k < 3 {
        assert all[k] == DeductionWords[k];
      } else if k < 6 {
        assert all[k] == DateWords[k - 3];
      } else {
        assert all[k] == BonusWords[k - 6];
      }
    }
    if AnyIn(q, DeductionWords) {
      var k :| 0 <= k < 3 && Contains(q, DeductionWords[k]);
      assert all[k] == DeductionWords[k];
    } else if AnyIn(q, DateWords) {
      var k :| 0 <= k < 3 && Contains(q, DateWords[k]);
      assert all[k + 3] == DateWords[k];
    } else if AnyIn(q, BonusWords) {
      var k :| 0 <= k < 5 && Contains(q, BonusWords[k]);
      assert all[k + 6] == BonusWords[k];
    }
  }

  // ---------------------------------------------------------------------
  // _extract_period_from_query
  // ---------------------------------------------------------------------

  /** The only year the period extraction knows. */
  const Year: string := "2025"
  const FirstQuarter: (string, string) := (Year + "-" + "01", Year + "-" + "03")
  const SecondQuarter: (string, string) := (Year + "-" + "04", Year + "-" + "06")

  /** The first-quarter condition, with Python's `and` binding tighter than `or`. */
  predicate FirstQuarterTest(q: string) {
    Contains(q, "1º trimestre") || Contains(q, "primeiro trimestre") || Contains(q, "1 trimestre")
    || (Contains(q, "1") && Contains(q, "trimestre"))
  }

  /** `_extract_period_from_query`: a hard-coded 2025 range, tested in order. */
  function ExtractPeriod(query: string): (r: Option<(string, string)>)
    ensures r.Some? ==> r.value == FirstQuarter || r.value == SecondQuarter
    ensures var q := NormalizeQuery(query);
      (Contains(q, "1") && Contains(q, "trimestre")) || Contains(q, "primeiro trimestre") ==> r == Some(FirstQuarter)
    ensures var q := NormalizeQuery(query);
      !FirstQuarterTest(q) && (Contains(q, "2º trimestre") || Contains(q, "segundo trimestre")) ==> r == Some(SecondQuarter)
    ensures var q := NormalizeQuery(query);
      (!FirstQuarterTest(q) && !Contains(q, "2º trimestre") && !Contains(q, "segundo trimestre")
       && Contains(q, "janeiro") && (Contains(q, "março") || Contains(q, "marco")))
      ==> r == Some(FirstQuarter)
    ensures var q := NormalizeQuery(query);
      r.None? <==>
        (!FirstQuarterTest(q) && !Contains(q, "2º trimestre") && !Contains(q, "segundo trimestre")
         && !(Contains(q, "janeiro") && (Contains(q, "março") || Contains(q, "marco"))))
  {
    var q := NormalizeQuery(query);
    FirstQuarterTestReduced(q);
    if FirstQuarterTest(q) then Some(FirstQuarter)
    else if Contains(q, "2º trimestre") || Contains(q, "segundo trimestre") then Some(SecondQuarter)
    else if Contains(q, "janeiro") && Contains(q, "março") then Some(FirstQuarter)
    else if Contains(q, "janeiro") && Contains(q, "marco") then Some(FirstQuarter)
    else None
  }

  /** Any text holding a digit 1 and the word "trimestre" is read as the first quarter; the
      three phrase tests before that conjunction add only "primeiro trimestre". */
  lemma FirstQuarterTestReduced(q: string)
    ensures FirstQuarterTest(q) <==> (Contains(q, "1") && Contains(q, "trimestre")) || Contains(q, "primeiro trimestre")
  {
    var t := "trimestre";
    if Contains(q, "1º trimestre") {
      assert "1º trimestre"[0..1] == "1" && "1º trimestre"[3..12] == t;
      ContainsAt("1º trimestre", "1", 0);
      ContainsAt("1º trimestre", t, 3);
      ContainsTransitive(q, "1º trimestre", "1");
      ContainsTransitive(q, "1º trimestre", t);
    }
    if Contains(q, "1 trimestre") {
      assert "1 trimestre"[0..1] == "1" && "1 trimestre"[2..11] == t;
      ContainsAt("1 trimestre", "1", 0);
      ContainsAt("1 trimestre", t, 2);
      ContainsTransitive(q, "1 trimestre", "1");
      ContainsTransitive(q, "1 trimestre", t);
    }
  }

  /** The two ranges `_extract_period_from_query` can return have canonical competencies at
      both ends, which `parse_competency` keeps as they are, and are not empty under string order. */
  lemma PeriodBounds()
    ensures ParseCompetency(FirstQuarter.0) == Some(FirstQuarter.0) && ParseCompetency(FirstQuarter.1) == Some(FirstQuarter.1)
    ensures ParseCompetency(SecondQuarter.0) == Some(SecondQuarter.0) && ParseCompetency(SecondQuarter.1) == Some(SecondQuarter.1)
    ensures LexLe(FirstQuarter.0, FirstQuarter.1) && LexLe(SecondQuarter.0, SecondQuarter.1)
  {
    QuarterBounds(FirstQuarter, Year, "01", "03");
    QuarterBounds(SecondQuarter, Year, "04", "06");
  }

  lemma QuarterBounds(range: (string, string), year: string, first: string, last: string)
    requires range == (year + "-" + first, year + "-" + last)
    requires |year| == 4 && AllIn(year, Digit)
    requires |first| == 2 && AllIn(first, Digit) && |last| == 2 && AllIn(last, Digit)
    requires first[0] == last[0] && first[1] < last[1]
    ensures ParseCompetency(range.0) == Some(range.0) && ParseCompetency(range.1) == Some(range.1)
    ensures LexLe(range.0, range.1)
  {
    YearDashMonthForm(year, first);
    YearDashMonthForm(year, last);
    LexLeCommonPrefix(year + "-", first, last);
  }

  /** A text holding a digit 1 and "trimestre" is read as the first quarter. */
  lemma OneAndQuarter(query: string)
    requires Contains(NormalizeQuery(query), "1") && Contains(NormalizeQuery(query), "trimestre")
    ensures ExtractPeriod(query) == Some(FirstQuarter)
  {
  }

  /** A query for the second quarter that also holds a digit 1 (say, of the year 2021) is read
      as the first quarter, since the `"1" in q and "trimestre" in q` test comes first. */
  lemma SecondQuarterWithOne(query: string)
    requires Contains(NormalizeQuery(query), "segundo trimestre") && Contains(NormalizeQuery(query), "1")
    ensures ExtractPeriod(query) == Some(FirstQuarter)
  {
    assert "segundo trimestre"[8..17] == "trimestre";
    ContainsAt("segundo trimestre", "trimestre", 8);
    ContainsTransitive(NormalizeQuery(query), "segundo trimestre", "trimestre");
  }

  // ---------------------------------------------------------------------
  // The handlers
  // ---------------------------------------------------------------------

  /** What `process_query` and the handlers return: the reply text and its evidence. */
  datatype Reply = Reply(message: Option<string>, evidence: Option<seq<R.Evidence>>)

  /** Python truthiness of an optional string. */
  predicate Truthy(s: Option<string>) {
    s.Some? && s.value != ""
  }

  /** A request for the details the query lacks. */
  predicate AsksForDetails(r: Reply) {
    r.evidence.None? && r.message.Some? && "Preciso " <= r.message.value
  }

  /** A report that the store holds nothing for the employee. */
  predicate ReportsNotFound(r: Reply, name: string) {
    r.evidence.None? && r.message.Some? && "Não encontrei dados para " + name <= r.message.value
  }

  /** An answer quoting an amount in Brazilian format, backed by exactly the given evidence. */
  predicate Answers(r: Reply, amount: int, evidence: seq<R.Evidence>) {
    r.evidence == Some(evidence) && r.message.Some? && Contains(r.message.value, FormatCurrencyBr(amount))
  }

  // The endings of the clarification messages, after "Preciso ".
  const NetPayMissing := "do nome do funcionário e da competência para consultar o salário líquido."
  const TotalNameMissing := "do nome do funcionário para calcular o total do período."
  const PeriodMissing := "especificar o período (ex: 1º trimestre, janeiro a março, etc.)."
  const DeductionMissing := "do nome do funcionário e da competência para consultar os descontos."
  const PaymentDateMissing := "do nome do funcionário e da competência para consultar a data de pagamento."
  const BonusMissing := "do nome do funcionário para consultar o maior bônus."

  /** A clarification message. */
  function Ask(rest: string): (r: Reply)
    ensures AsksForDetails(r) && Truthy(r.message)
  {
    Reply(Some("Preciso " + rest), None)
  }

  /** A "not found" message for an employee. */
  function NotFound(name: string, rest: string): (r: Reply)
    ensures ReportsNotFound(r, name) && Truthy(r.message)
  {
    var p := "Não encontrei dados para " + name;
    assert p <= p + rest;
    Reply(Some(p + rest), None)
  }

  /** An answer whose text carries the formatted amount between two fixed pieces. */
  function Answer(before: string, amount: int, after: string, evidence: seq<R.Evidence>): (r: Reply)
    ensures Answers(r, amount, evidence) && Truthy(r.message)
    ensures r.message == Some(before + FormatCurrencyBr(amount) + after)
  {
    ContainsMiddle(before, FormatCurrencyBr(amount), after);
    Reply(Some(before + FormatCurrencyBr(amount) + after), Some(evidence))
  }

  lemma QuotesSecond(a: string, b: string, c: string, d: string, e: string)
    ensures Contains(a + b + c + d + e, b)
  {
    assert a + b + c + d + e == a + b + (c + d + e);
    ContainsMiddle(a, b, c + d + e);
  }

  lemma QuotesInAfter(a: string, b: string, c: string, d: string, e: string)
    ensures Contains(a + b + (c + d + e), d)
  {
    assert a + b + (c + d + e) == a + b + c + d + e;
    ContainsMiddle(a + b + c, d, e);
  }

  /** `_process_net_pay_query`, given the extracted name and competency and what
      `get_net_pay` returned for them. */
  function NetPayAnswer(name: Option<string>, comp: Option<string>, res: Option<(int, R.Evidence)>): (r: Reply)
    ensures !(Truthy(name) && Truthy(comp)) ==> AsksForDetails(r)
    ensures Truthy(name) && Truthy(comp) ==>
      (res.None? ==> ReportsNotFound(r, name.value)) && (res.Some? ==> Answers(r, res.value.0, [res.value.1]))
  {
    if !(Truthy(name) && Truthy(comp)) then
      Ask(NetPayMissing)
    else if res.None? then NotFound(name.value, " na competência " + comp.value + ".")
    else Answer("O salário líquido de " + name.value + " em " + comp.value + " foi ", res.value.0, ".", [res.value.1])
  }

  function NetPayReply(df: seq<R.Row>, name: Option<string>, comp: Option<string>): (r: Reply)
    ensures Truthy(r.message)
    ensures r.evidence.Some? ==> r.evidence.value != []
  {
    NetPayAnswer(name, comp, if Truthy(name) && Truthy(comp) then R.GetNetPay(df, name.value, comp.value) else None)
  }

  /** `_process_total_period_query`, given the extracted name and period and what
      `get_total_period` returned for them: the store's evidence list is passed on unchanged. */
  function TotalPeriodAnswer(name: Option<string>, period: Option<(string, string)>, res: Option<(int, seq<R.Evidence>)>): (r: Reply)
    ensures !Truthy(name) || period.None? ==> AsksForDetails(r)
    ensures Truthy(name) && period.Some? ==>
      (res.None? ==> ReportsNotFound(r, name.value)) && (res.Some? ==> Answers(r, res.value.0, res.value.1))
  {
    if !Truthy(name) then Ask(TotalNameMissing)
    else if period.None? then Ask(PeriodMissing)
    else if res.None? then NotFound(name.value, " no período especificado.")
    else
      var (start, end) := period.value;
      Answer("O total líquido de " + name.value + " no período de " + start + " a " + end + " foi ", res.value.0, ".", res.value.1)
  }

  function TotalPeriodReply(df: seq<R.Row>, name: Option<string>, period: Option<(string, string)>): (r: Reply)
    ensures Truthy(r.message)
    ensures r.evidence.Some? ==> r.evidence.value != []
  {
    TotalPeriodAnswer(name, period,
      if Truthy(name) && period.Some? then R.TotalPeriod(df, name.value, period.value.0, period.value.1) else None)
  }

  /** The deduction a query asks about: IRRF when its lower-cased text mentions it, INSS otherwise. */
  function DeductionType(query: string): (t: string)
    ensures t == "irrf" <==> Contains(Lower(query), "irrf")
    ensures t == "irrf" || t == "inss"
  {
    if Contains(Lower(query), "irrf") then "irrf" else "inss"
  }

  /** `_process_deduction_query`, given the extracted name, competency and deduction type and
      what `get_deduction` returned for them. */
  function DeductionAnswer(name: Option<string>, comp: Option<string>, kind: string, res: Option<(int, R.Evidence)>): (r: Reply)
    ensures !(Truthy(name) && Truthy(comp)) ==> AsksForDetails(r)
    ensures Truthy(name) && Truthy(comp) ==>
      (res.None? ==> ReportsNotFound(r, name.value)) && (res.Some? ==> Answers(r, res.value.0, [res.value.1]))
  {
    if !(Truthy(name) && Truthy(comp)) then
      Ask(DeductionMissing)
    else if res.None? then NotFound(name.value, " na competência " + comp.value + ".")
    else
      var upper := if kind == "irrf" then "IRRF" else "INSS";
      Answer("O desconto de " + upper + " de " + name.value + " em " + comp.value + " foi ", res.value.0, ".", [res.value.1])
  }

  function DeductionReply(df: seq<R.Row>, name: Option<string>, comp: Option<string>, kind: string): (r: Reply)
    requires kind == "irrf" || kind == "inss"
    ensures Truthy(r.message)
    ensures r.evidence.Some? ==> r.evidence.value != []
  {
    DeductionAnswer(name, comp, kind,
      if Truthy(name) && Truthy(comp) then R.GetDeduction(df, name.value, comp.value, kind) else None)
  }

  /** `_process_payment_date_query`, given the extracted name and competency and what
      `get_payment_date` returned for them: the reply quotes that date and the record's net pay. */
  function PaymentDateAnswer(name: Option<string>, comp: Option<string>, res: Option<(string, R.Evidence)>): (r: Reply)
    ensures !(Truthy(name) && Truthy(comp)) ==> AsksForDetails(r)
    ensures Truthy(name) && Truthy(comp) ==>
      (res.None? ==> ReportsNotFound(r, name.value))
      && (res.Some? ==> Answers(r, res.value.1.recordData.netPay, [res.value.1]) && Contains(r.message.value, res.value.0))
  {
    if !(Truthy(name) && Truthy(comp)) then
      Ask(PaymentDateMissing)
    else if res.None? then NotFound(name.value, " na competência " + comp.value + ".")
    else
      var a := "O pagamento de " + name.value + " em " + comp.value + " foi realizado em ";
      var net := res.value.1.recordData.netPay;
      var b := " no valor de ";
      QuotesSecond(a, res.value.0, b, FormatCurrencyBr(net), ".");
      Answer(a + res.value.0 + b, net, ".", [res.value.1])
  }

  function PaymentDateReply(df: seq<R.Row>, name: Option<string>, comp: Option<string>): (r: Reply)
    ensures Truthy(r.message)
    ensures r.evidence.Some? ==> r.evidence.value != []
  {
    PaymentDateAnswer(name, comp, if Truthy(name) && Truthy(comp) then R.GetPaymentDate(df, name.value, comp.value) else None)
  }

  /** `_process_max_bonus_query`, given the extracted name and what `get_max_bonus` returned:
      the reply quotes the bonus and its competency. */
  function MaxBonusAnswer(name: Option<string>, res: Option<(int, string, R.Evidence)>): (r: Reply)
    ensures !Truthy(name) ==> AsksForDetails(r)
    ensures Truthy(name) ==>
      (res.None? ==> ReportsNotFound(r, name.value))
      && (res.Some? ==> Answers(r, res.value.0, [res.value.2]) && Contains(r.message.value, res.value.1))
  {
    if !Truthy(name) then Ask(BonusMissing)
    else if res.None? then NotFound(name.value, ".")
    else
      var a := "O maior bônus de " + name.value + " foi ";
      var b := " em ";
      QuotesInAfter(a, FormatCurrencyBr(res.value.0), b, res.value.1, ".");
      Answer(a, res.value.0, b + res.value.1 + ".", [res.value.2])
  }

  function MaxBonusReply(df: seq<R.Row>, name: Option<string>): (r: Reply)
    ensures Truthy(r.message)
    ensures r.evidence.Some? ==> r.evidence.value != []
  {
    MaxBonusAnswer(name, if Truthy(name) then R.MaxBonus(df, name.value) else None)
  }

  // ---------------------------------------------------------------------
  // process_query
  // ---------------------------------------------------------------------

  /** `process_query`: dispatches on the intent; an unknown intent has no reply at all. */
  function ProcessQuery(df: seq<R.Row>, query: string): (r: Reply)
    ensures r.message.None? <==> IdentifyQueryType(query) == Unknown
    ensures r.message.Some? ==> Truthy(r.message)
    ensures r.message.None? ==> r.evidence.None?
    ensures IdentifyQueryType(query) == NetPay ==>
      r == NetPayReply(df, ExtractEmployeeName(query), ExtractCompetency(query))
    ensures IdentifyQueryType(query) == TotalPeriod ==>
      r == TotalPeriodReply(df, ExtractEmployeeName(query), ExtractPeriod(query))
    ensures IdentifyQueryType(query) == Deduction ==>
      r == DeductionReply(df, ExtractEmployeeName(query), ExtractCompetency(query), DeductionType(query))
    ensures IdentifyQueryType(query) == PaymentDate ==>
      r == PaymentDateReply(df, ExtractEmployeeName(query), ExtractCompetency(query))
    ensures IdentifyQueryType(query) == MaxBonus ==> r == MaxBonusReply(df, ExtractEmployeeName(query))
  {
    var name := ExtractEmployeeName(query);
    match IdentifyQueryType(query)
    case NetPay => NetPayReply(df, name, ExtractCompetency(query))
    case TotalPeriod => TotalPeriodReply(df, name, ExtractPeriod(query))
    case Deduction => DeductionReply(df, name, ExtractCompetency(query), DeductionType(query))
    case PaymentDate => PaymentDateReply(df, name, ExtractCompetency(query))
    case MaxBonus => MaxBonusReply(df, name)
    case Unknown => Reply(None, None)
  }

  /** Every evidence list a reply carries is non-empty: one record for the single-record
      intents, at least one for a period total. */
  lemma ProcessQueryEvidence(df: seq<R.Row>, query: string)
    ensures var r := ProcessQuery(df, query);
      r.evidence.Some? ==> r.evidence.value != []
  {
  }
}
