/** The HTTP layer of `app/api.py`: the `/chat` dispatch between the payroll path, the web
    path and the general path, the web-search keyword gate, and the two lookup endpoints.
    Services the module only reads (the store, the keys, whether web search is enabled) and
    what its collaborators return (each backend's outcome, the web search hit, an exception
    raised on the way) are parameters. */
module Api {
  import opened Text
  import opened Wrappers
  import opened Utils
  import R = RagSystem
  import Q = QueryProcessor
  import L = LlmService

  // ---------------------------------------------------------------------
  // _is_web_search_query
  // ---------------------------------------------------------------------

  const WebKeywords: seq<string> := [
    "taxa selic", "selic", "inflação", "inflacao", "ibovespa", "dólar", "dolar",
    "euro", "bitcoin", "crypto", "economia", "mercado", "bolsa", "notícias",
    "noticias", "atual", "hoje", "agora", "tempo", "clima", "temperatura",
    "fórmula 1", "formula 1", "f1", "gp", "grand prix", "corrida", "piloto",
    "azerbaijan", "baku", "vencedor", "venceu", "resultado", "classificação"]

  /** The web gate: some keyword occurs in the lower-cased message; unlike the payroll gate,
      no dash or soft hyphen is removed first. */
  function IsWebSearchQuery(message: string): (b: bool)
    ensures b <==> exists k :: 0 <= k < |WebKeywords| && Contains(Lower(message), WebKeywords[k])
  {
    Q.AnyIn(Lower(message), WebKeywords)
  }

  /** The web gate ignores case: a message and its lower-cased form are routed alike. */
  lemma WebGateIgnoresCase(message: string)
    ensures IsWebSearchQuery(Lower(message)) == IsWebSearchQuery(message)
  {
    LowerIdempotent(message);
  }

  lemma DropDashesCons(c: char, s: string)
    ensures Q.DropDashes([c] + s) == (if Q.IsDropped(c) then [] else [c]) + Q.DropDashes(s)
  {
    assert ([c] + s)[1..] == s;
  }

  /** Removing the dashes of a concatenation removes those of each part. */
  lemma {:induction false} DropDashesAppend(a: string, b: string)
    ensures Q.DropDashes(a + b) == Q.DropDashes(a) + Q.DropDashes(b)
    decreases |a|
  {
    if a != [] {
      assert a + b == [a[0]] + (a[1..] + b);
      assert a == [a[0]] + a[1..];
      DropDashesCons(a[0], a[1..] + b);
      DropDashesCons(a[0], a[1..]);
      DropDashesAppend(a[1..], b);
    } else {
      assert a + b == b;
    }
  }

  /** A soft hyphen anywhere in a message is invisible to the payroll gate's normalisation,
      while the web gate sees it: a keyword split by one is found by the first and missed
      by the second (as `SoftHyphenHidesSelic` shows for "selic"). */
  lemma SoftHyphenInvisible(a: string, b: string)
    ensures Q.NormalizeQuery(a + "\U{ad}" + b) == Q.NormalizeQuery(a + b)
  {
    DropDashesAppend(a + "\U{ad}", b);
    DropDashesAppend(a, "\U{ad}");
    DropDashesCons('\U{ad}', []);
    DropDashesAppend(a, b);
  }

  /** A soft hyphen inside "selic" hides the keyword from the web gate, which looks at the
      lower-cased text as it is, although the payroll gate's normalisation joins the word again. */
  lemma SoftHyphenHidesSelic(message: string)
    requires message == "se\U{ad}lic"
    ensures Contains(Q.NormalizeQuery(message), "selic")
    ensures !Contains(Lower(message), "selic")
  {
    SoftHyphenDropped(message);
    LowerKeeps("selic");
    ContainsAt(Q.NormalizeQuery(message), "selic", 0);
    LowerKeeps(message);
    SelicSplit(message);
  }

  lemma SoftHyphenDropped(message: string)
    requires message == "se\U{ad}lic"
    ensures Q.DropDashes(message) == "selic"
  {
    var tail := "lic";
    assert forall i :: 0 <= i < |tail| ==> !Q.IsDropped(tail[i]);
    assert message == ['s'] + (['e'] + (['\U{ad}'] + tail));
    DropDashesCons('\U{ad}', tail);
    DropDashesCons('e', ['\U{ad}'] + tail);
    DropDashesCons('s', ['e'] + (['\U{ad}'] + tail));
  }

  /** Text with no capital letter is its own lower-cased form. */
  lemma LowerKeeps(s: string)
    requires forall i :: 0 <= i < |s| ==> 'a' <= s[i] <= 'z' || s[i] == '\U{ad}'
    ensures Lower(s) == s
  {
    var q := Lower(s);
    forall i | 0 <= i < |q| ensures q[i] == s[i] {
      assert q[i] == LowerChar(s[i]);
    }
  }

  lemma SelicSplit(q: string)
    requires q == "se\U{ad}lic"
    ensures !Contains(q, "selic")
  {
    ContainsIff(q, "selic");
    forall i | 0 <= i && i + 5 <= |q| ensures !OccursAt(q, "selic", i) {
      if i == 0 {
        assert q[i..i + 5][2] == '\U{ad}' != "selic"[2];
      } else {
        assert q[i..i + 5][0] == 'e' != "selic"[0];
      }
    }
  }

  // ---------------------------------------------------------------------
  // Responses
  // ---------------------------------------------------------------------

  /** A response body, or an `HTTPException` with its status and detail. */
  datatype Response<T> = Ok(body: T) | HttpError(status: int, detail: string)

  /** `ChatResponse` without its timestamp: `evidence` and `sources` are None when not given. */
  datatype ChatResponse = ChatResponse(message: string, evidence: Option<seq<R.Evidence>>, sources: Option<seq<string>>)

  /** A truthy result of the web search: its printed form, which the user turn quotes, and
      its "source" entry when it has one. */
  datatype WebHit = WebHit(shown: string, source: Option<string>)

  /** The running configuration: the two API keys and whether the web search service exists. */
  datatype Services = Services(openAiKey: Option<string>, groqKey: Option<string>, webEnabled: bool)

  const InternalError := "Erro interno: "
  const WebHeading := "\n\nInformações encontradas na web:\n"
  const DefaultWebSource := "Web Search"

  /** The citation of one piece of evidence in `sources`. */
  function SourceOf(ev: R.Evidence): (s: string)
    ensures "Fonte: " + s == L.Citation(ev)
  {
    assert "Fonte: " + (ev.employeeId + ", " + ev.competency) == "Fonte: " + ev.employeeId + ", " + ev.competency;
    ev.employeeId + ", " + ev.competency
  }

  /** The sources of a payroll reply: one citation per evidence, in order, or none. */
  function Sources(evidence: Option<seq<R.Evidence>>): (s: seq<string>)
    ensures !L.HasEvidence(evidence) ==> s == []
    ensures L.HasEvidence(evidence) ==> |s| == |evidence.value|
    ensures L.HasEvidence(evidence) ==> forall k :: 0 <= k < |s| ==> "Fonte: " + s[k] == L.Citation(evidence.value[k])
  {
    if L.HasEvidence(evidence) then CitationsOf(evidence.value) else []
  }

  function CitationsOf(ev: seq<R.Evidence>): (s: seq<string>)
    ensures |s| == |ev|
    ensures forall k :: 0 <= k < |s| ==> s[k] == SourceOf(ev[k])
  {
    seq(|ev|, k requires 0 <= k < |ev| => SourceOf(ev[k]))
  }

  /** The sources of the web path. */
  function WebSources(hit: WebHit): (s: seq<string>)
    ensures |s| == 1
    ensures hit.source.Some? ==> s[0] == hit.source.value
    ensures hit.source.None? ==> s[0] == DefaultWebSource
  {
    [if hit.source.Some? then hit.source.value else DefaultWebSource]
  }

  /** The reply `generate_response` gives to one user turn. */
  function Generate(services: Services, userMessage: string, evidence: Option<seq<R.Evidence>>,
                    groq: L.Outcome, openAi: L.Outcome): string
  {
    L.GenerateResponse(services.openAiKey, services.groqKey, userMessage, evidence, groq, openAi)
  }

  /** The payroll path is taken: the gate passes and `process_query` has a truthy reply. */
  predicate TakesPayrollPath(df: seq<R.Row>, message: string) {
    L.IsPayrollQuery(message) && Q.Truthy(Q.ProcessQuery(df, message).message)
  }

  /** The web path is taken (when the payroll path is not). */
  predicate TakesWebPath(services: Services, message: string, web: Option<WebHit>) {
    services.webEnabled && IsWebSearchQuery(message) && web.Some?
  }

  // ---------------------------------------------------------------------
  // chat
  // ---------------------------------------------------------------------

  /** `POST /chat`. `groq` and `openAi` are what the backends answer to the one
      `generate_response` call the request makes, `web` what the search returns when it is
      called, and `raised` the text of an exception raised on the way, if any. */
  function Chat(df: seq<R.Row>, services: Services, message: string, groq: L.Outcome, openAi: L.Outcome,
                web: Option<WebHit>, raised: Option<string>): (r: Response<ChatResponse>)
    ensures r.HttpError? <==> raised.Some?
    ensures r.HttpError? ==> r.status == 500 && InternalError <= r.detail && r.detail[|InternalError|..] == raised.value
    ensures r.Ok? && TakesPayrollPath(df, message) ==>
      var reply := Q.ProcessQuery(df, message);
      r.body.evidence == reply.evidence && r.body.sources == Some(Sources(reply.evidence))
      && r.body.message == Generate(services, message, reply.evidence, groq, openAi)
    ensures r.Ok? && !TakesPayrollPath(df, message) && TakesWebPath(services, message, web) ==>
      r.body.evidence.None? && r.body.sources == Some(WebSources(web.value))
      && r.body.message == Generate(services, message + WebHeading + web.value.shown, None, groq, openAi)
    ensures r.Ok? && !TakesPayrollPath(df, message) && !TakesWebPath(services, message, web) ==>
      r.body == ChatResponse(Generate(services, message, None, groq, openAi), None, None)
  {
    if raised.Some? then
      assert (InternalError + raised.value)[|InternalError|..] == raised.value;
      HttpError(500, InternalError + raised.value)
    else if TakesPayrollPath(df, message) then
      var reply := Q.ProcessQuery(df, message);
      Ok(ChatResponse(Generate(services, message, reply.evidence, groq, openAi), reply.evidence, Some(Sources(reply.evidence))))
    else if TakesWebPath(services, message, web) then
      Ok(ChatResponse(Generate(services, message + WebHeading + web.value.shown, None, groq, openAi), None, Some(WebSources(web.value))))
    else
      Ok(ChatResponse(Generate(services, message, None, groq, openAi), None, None))
  }

  /** Every payroll-gated message with a known intent is answered on the payroll path, be it
      with an answer, a clarification or a "not found" text. */
  lemma KnownIntentTakesPayrollPath(df: seq<R.Row>, message: string)
    requires L.IsPayrollQuery(message) && Q.IdentifyQueryType(message) != Q.Unknown
    ensures TakesPayrollPath(df, message)
  {
  }

  /** An unknown intent falls through: the response then carries no evidence. */
  lemma UnknownIntentFallsThrough(df: seq<R.Row>, services: Services, message: string, groq: L.Outcome,
                                  openAi: L.Outcome, web: Option<WebHit>)
    requires Q.IdentifyQueryType(message) == Q.Unknown
    ensures var r := Chat(df, services, message, groq, openAi, web, None);
      r.Ok? && r.body.evidence.None? && (r.body.sources.Some? ==> TakesWebPath(services, message, web))
  {
  }

  /** Evidence in a response comes only from the payroll path, and is never an empty list. */
  lemma EvidenceOnlyFromPayrollPath(df: seq<R.Row>, services: Services, message: string, groq: L.Outcome,
                                    openAi: L.Outcome, web: Option<WebHit>, raised: Option<string>)
    ensures var r := Chat(df, services, message, groq, openAi, web, raised);
      r.Ok? && r.body.evidence.Some? ==>
        TakesPayrollPath(df, message) && r.body.evidence.value != []
        && |r.body.sources.value| == |r.body.evidence.value|
  {
    Q.ProcessQueryEvidence(df, message);
  }

  /** In demo mode the payroll reply quotes, for every source it lists, that source's citation. */
  lemma DemoReplyCitesSources(df: seq<R.Row>, services: Services, message: string, groq: L.Outcome,
                              openAi: L.Outcome, web: Option<WebHit>, k: nat)
    requires L.DemoMode(services.openAiKey, services.groqKey)
    requires TakesPayrollPath(df, message)
    ensures var r := Chat(df, services, message, groq, openAi, web, None);
      r.Ok? && (k < |r.body.sources.value| ==> Contains(r.body.message, "Fonte: " + r.body.sources.value[k]))
  {
    var r := Chat(df, services, message, groq, openAi, web, None);
    var reply := Q.ProcessQuery(df, message);
    if k < |r.body.sources.value| {
      assert L.HasEvidence(reply.evidence);
      assert r.body.message == L.DemoResponse(message, reply.evidence);
      L.DemoResponseCites(message, reply.evidence.value, k);
    }
  }

  // ---------------------------------------------------------------------
  // get_employee_competencies
  // ---------------------------------------------------------------------

  /** Strictly ascending in Python's string order: sorted and free of duplicates. */
  predicate StrictlySorted(s: seq<string>) {
    forall i, j :: 0 <= i < j < |s| ==> LexLe(s[i], s[j]) && s[i] != s[j]
  }

  lemma ConsSorted(h: string, s: seq<string>)
    requires StrictlySorted(s)
    requires forall y :: y in s ==> LexLe(h, y) && h != y
    ensures StrictlySorted([h] + s)
  {
    var t := [h] + s;
    forall i, j | 0 <= i < j < |t| ensures LexLe(t[i], t[j]) && t[i] != t[j] {
      if i > 0 {
        assert t[i] == s[i - 1] && t[j] == s[j - 1];
      } else {
        assert t[j] == s[j - 1] && t[j] in s;
      }
    }
  }

  /** `x` placed into a strictly sorted list, unless already there. */
  function InsertDistinct(x: string, s: seq<string>): (r: seq<string>)
    requires StrictlySorted(s)
    ensures StrictlySorted(r)
    ensures forall y :: y in r <==> y == x || y in s
    decreases |s|
  {
    if s == [] then [x]
    else if x == s[0] then s
    else if LexLe(x, s[0]) then
      assert forall y :: y in s ==> y == s[0] || y in s[1..];
      forall y | y in s ensures LexLe(x, y) && x != y {
        if y != s[0] {
          LexLeTransitive(x, s[0], y);
          LexLeTotal(x, s[0]);
        }
      }
      ConsSorted(x, s);
      [x] + s
    else
      LexLeTotal(x, s[0]);
      var rest := InsertDistinct(x, s[1..]);
      assert forall y :: y in s ==> y == s[0] || y in s[1..];
      assert forall y :: y in s[1..] ==> LexLe(s[0], y) && s[0] != y;
      ConsSorted(s[0], rest);
      assert s == [s[0]] + s[1..];
      [s[0]] + rest
  }

  /** `list(set(xs))` followed by `sort()`: the distinct values of `xs` in ascending order. */
  function SortedDistinct(xs: seq<string>): (r: seq<string>)
    ensures StrictlySorted(r)
    ensures forall y :: y in r <==> y in xs
  {
    if xs == [] then []
    else
      var init := xs[..|xs| - 1];
      assert xs == init + [xs[|xs| - 1]];
      InsertDistinct(xs[|xs| - 1], SortedDistinct(init))
  }

  /** The competency of each record, in order. */
  function CompetenciesOf(records: seq<R.Record>): (cs: seq<string>)
    ensures |cs| == |records|
    ensures forall k :: 0 <= k < |cs| ==> cs[k] == records[k].competency
    ensures forall c :: c in cs <==> exists rec :: rec in records && rec.competency == c
  {
    var cs := seq(|records|, k requires 0 <= k < |records| => records[k].competency);
    forall c ensures c in cs <==> exists rec :: rec in records && rec.competency == c {
      if c in cs {
        var k :| 0 <= k < |cs| && cs[k] == c;
        assert records[k] in records;
      }
      if exists rec :: rec in records && rec.competency == c {
        var rec :| rec in records && rec.competency == c;
        var k :| 0 <= k < |records| && records[k] == rec;
        assert cs[k] == c;
      }
    }
    cs
  }

  datatype CompetencyList = CompetencyList(employee: string, competencies: seq<string>)

  const EmployeeNotFound := "Funcionário não encontrado"

  /** `GET /employee/{name}/competencies`: 404 when the search finds nobody, otherwise every
      competency of the records found, once each, in ascending order. */
  function EmployeeCompetencies(df: seq<R.Row>, employeeName: string): (r: Response<CompetencyList>)
    ensures r.HttpError? <==> R.SearchEmployee(df, employeeName) == []
    ensures r.HttpError? ==> r.status == 404 && r.detail == EmployeeNotFound
    ensures r.Ok? ==> r.body.employee == employeeName && StrictlySorted(r.body.competencies)
    ensures r.Ok? ==> forall c :: c in r.body.competencies <==>
      exists rec :: rec in R.SearchEmployee(df, employeeName) && rec.competency == c
  {
    var records := R.SearchEmployee(df, employeeName);
    if records == [] then HttpError(404, EmployeeNotFound)
    else
      var cs := CompetenciesOf(records);
      Ok(CompetencyList(employeeName, SortedDistinct(cs)))
  }

  // ---------------------------------------------------------------------
  // get_payroll_data
  // ---------------------------------------------------------------------

  datatype PayrollView = PayrollView(employee: string, competency: string, data: R.Record)

  const DataNotFound := "Dados não encontrados"

  /** `GET /payroll/{name}/{competency}`: 404 when nothing matches, otherwise the first
      matching record, which is one of the employee's records for that competency. */
  function PayrollData(df: seq<R.Row>, employeeName: string, competency: string): (r: Response<PayrollView>)
    ensures r.HttpError? <==> R.SearchEmployeeCompetency(df, employeeName, competency) == []
    ensures r.Ok? ==> r.body.data == R.SearchEmployeeCompetency(df, employeeName, competency)[0]
    ensures r.HttpError? ==> r.status == 404 && r.detail == DataNotFound
    ensures ParseCompetency(competency).None? ==> r.HttpError?
    ensures r.Ok? ==>
      r.body.employee == employeeName && r.body.competency == competency
      && r.body.data in R.SearchEmployee(df, employeeName)
      && Some(r.body.data.competency) == ParseCompetency(competency)
  {
    var records := R.SearchEmployeeCompetency(df, employeeName, competency);
    if records == [] then HttpError(404, DataNotFound)
    else
      assert records[0] in records;
      Ok(PayrollView(employeeName, competency, records[0]))
  }
}
