/** The answer-generation service of `app/llm_service.py`: the payroll keyword gate, the
    message list handed to a chat model, the evidence text, the canned demo replies, and the
    order in which the Groq and OpenAI backends are tried. The backends themselves are outside
    the model: what they return (a text, or a failure with its message) is an input. */
module LlmService {
  import opened Text
  import opened Wrappers
  import opened Utils
  import R = RagSystem
  import Q = QueryProcessor

  // ---------------------------------------------------------------------
  // is_payroll_query
  // ---------------------------------------------------------------------

  /** The gate's keywords, in the order the source lists them. */
  const PayrollKeywords: seq<string> := [
    "salário", "salario", "pagamento", "líquido", "liquido",
    "bônus", "bonus", "inss", "irrf", "desconto", "descontos",
    "folha", "competência", "competencia", "recebi", "recebeu",
    "quanto", "valor", "data", "quando", "funcionário", "funcionario",
    "maior", "máximo", "maximo", "total", "trimestre", "período", "periodo"]

  /** `is_payroll_query`: the text, with the same four dash characters deleted and lower-cased
      as the classifier does, holds one of the keywords. */
  predicate IsPayrollQuery(message: string) {
    Q.AnyIn(Q.NormalizeQuery(message), PayrollKeywords)
  }

  /** The gate in its own terms: some keyword occurs in the normalised text. */
  lemma IsPayrollQueryIff(message: string)
    ensures IsPayrollQuery(message) <==>
      exists k :: 0 <= k < |PayrollKeywords| && Contains(Q.NormalizeQuery(message), PayrollKeywords[k])
  {
  }

  /** A keyword of the gate found in a text. */
  lemma InGate(q: string, k: nat)
    requires k < |PayrollKeywords| && Contains(q, PayrollKeywords[k])
    ensures Q.AnyIn(q, PayrollKeywords)
  {
  }

  /** The net-pay words of the first rule other than "lquido" and the soft-hyphen spelling are
      gate keywords. */
  lemma NetPayWordsInGate(q: string, k: nat)
    requires k < |Q.NetPayWords| && k != 2 && k != 3 && Contains(q, Q.NetPayWords[k])
    ensures Q.AnyIn(q, PayrollKeywords)
  {
    if k == 0 { InGate(q, 3); }
    else if k == 1 { InGate(q, 4); }
    else if k == 4 { InGate(q, 14); }
    else if k == 5 { InGate(q, 15); }
    else { InGate(q, 16); }
  }

  /** The deduction and bonus words are all gate keywords, and so are the date words other
      than "pago". */
  lemma LaterWordsInGate(q: string)
    ensures Q.AnyIn(q, Q.DeductionWords) ==> Q.AnyIn(q, PayrollKeywords)
    ensures Q.AnyIn(q, Q.BonusWords) ==> Q.AnyIn(q, PayrollKeywords)
    ensures Q.AnyIn(q, Q.DateWords) && !Contains(q, "pago") ==> Q.AnyIn(q, PayrollKeywords)
  {
    DeductionWordsInGate(q);
    BonusWordsInGate(q);
    DateWordsInGate(q);
  }

  lemma DeductionWordsInGate(q: string)
    ensures Q.AnyIn(q, Q.DeductionWords) ==> Q.AnyIn(q, PayrollKeywords)
  {
    if Q.AnyIn(q, Q.DeductionWords) {
      var k :| 0 <= k < 3 && Contains(q, Q.DeductionWords[k]);
      InGate(q, 7 + k);
    }
  }

  lemma BonusWordsInGate(q: string)
    ensures Q.AnyIn(q, Q.BonusWords) ==> Q.AnyIn(q, PayrollKeywords)
  {
    if Q.AnyIn(q, Q.BonusWords) {
      var k :| 0 <= k < 5 && Contains(q, Q.BonusWords[k]);
      BonusWordInGate(q, k);
    }
  }

  lemma BonusWordInGate(q: string, k: nat)
    requires k < 5 && Contains(q, Q.BonusWords[k])
    ensures Q.AnyIn(q, PayrollKeywords)
  {
    if k == 0 { InGate(q, 22); }
    else if k == 1 { InGate(q, 23); }
    else if k == 2 { InGate(q, 24); }
    else { InGate(q, k + 2); }
  }

  lemma DateWordsInGate(q: string)
    ensures Q.AnyIn(q, Q.DateWords) && !Contains(q, "pago") ==> Q.AnyIn(q, PayrollKeywords)
  {
    if Q.AnyIn(q, Q.DateWords) && !Contains(q, "pago") {
      var k :| 0 <= k < 3 && Contains(q, Q.DateWords[k]);
      if k == 0 { InGate(q, 19); }
      else { InGate(q, 18); }
    }
  }

  /** Every message the classifier gives an intent passes the payroll gate, unless the intent
      came from "lquido" or "pago", the only classifier keywords the gate lacks. */
  lemma GateCoversClassifier(message: string)
    ensures var q := Q.NormalizeQuery(message);
      Q.IdentifyQueryType(message) != Q.Unknown ==>
        IsPayrollQuery(message) || Contains(q, "lquido") || Contains(q, "pago")
  {
    var q := Q.NormalizeQuery(message);
    Q.SoftHyphenEntryDead(message);
    LaterWordsInGate(q);
    if Q.AnyIn(q, Q.NetPayWords) {
      var k :| 0 <= k < |Q.NetPayWords| && Contains(q, Q.NetPayWords[k]);
      if k != 2 && k != 3 {
        NetPayWordsInGate(q, k);
      }
    } else if Contains(q, "total") {
      InGate(q, 25);
    }
  }

  /** No word of the list occurs in `q` when each word holds a character `q` lacks. */
  lemma NoWordIn(q: string, words: seq<string>, missing: string)
    requires |missing| == |words|
    requires forall k :: 0 <= k < |words| ==> missing[k] in words[k] && missing[k] !in q
    ensures !Q.AnyIn(q, words)
  {
    forall k | 0 <= k < |words|
      ensures !Contains(q, words[k])
    {
      NotContainsMissingChar(q, words[k], missing[k]);
    }
  }

  lemma PaidQuestionNormal(message: string)
    requires message == "Foi pago?"
    ensures Q.NormalizeQuery(message) == "foi pago?"
  {
    assert forall i :: 0 <= i < |message| ==> !Q.IsDropped(message[i]);
    var q := Q.NormalizeQuery(message);
    assert |q| == 9;
    assert forall i :: 0 <= i < 9 ==> q[i] == "foi pago?"[i];
  }

  lemma PaidTextMissesGate(q: string)
    requires q == "foi pago?"
    ensures !Q.AnyIn(q, PayrollKeywords)
  {
    NoWordIn(q, PayrollKeywords, "ssmllbbnrddlccrrqvdquummmttee");
  }

  lemma PaidTextMissesEarlierRules(q: string)
    requires q == "foi pago?"
    ensures !Q.AnyIn(q, Q.NetPayWords) && !Contains(q, "total") && !Q.AnyIn(q, Q.DeductionWords)
  {
    NoWordIn(q, Q.NetPayWords, "llllrrq");
    NoWordIn(q, Q.DeductionWords, "nrd");
    NotContainsMissingChar(q, "total", 't');
  }

  lemma PaidTextHasDateWord(q: string)
    requires q == "foi pago?"
    ensures Q.AnyIn(q, Q.DateWords)
  {
    assert q[4..8] == "pago";
    ContainsAt(q, "pago", 4);
    assert Q.DateWords[2] == "pago";
  }

  /** "Foi pago?" is a payment-date question that the gate lets through to the general path. */
  lemma PaidQuestionMissesGate(message: string)
    requires message == "Foi pago?"
    ensures Q.IdentifyQueryType(message) == Q.PaymentDate
    ensures !IsPayrollQuery(message)
  {
    PaidQuestionNormal(message);
    var q := Q.NormalizeQuery(message);
    PaidTextMissesGate(q);
    PaidTextMissesEarlierRules(q);
    PaidTextHasDateWord(q);
  }

  // ---------------------------------------------------------------------
  // _format_evidence
  // ---------------------------------------------------------------------

  /** The last line of an evidence block: `Fonte: <id>, <competency>`. */
  function Citation(ev: R.Evidence): string {
    "Fonte: " + ev.employeeId + ", " + ev.competency
  }

  /** The lines of one evidence block before its citation. */
  function EvidenceLines(ev: R.Evidence): string {
    var x := ev.recordData;
    "Funcionário: " + x.name + " (ID: " + ev.employeeId + ")\n"
    + "Competência: " + ev.competency + "\n"
    + "Salário Base: " + FormatCurrencyBr(x.baseSalary) + "\n"
    + "Bônus: " + FormatCurrencyBr(x.bonus) + "\n"
    + "Desconto INSS: " + FormatCurrencyBr(x.deductionsInss) + "\n"
    + "Desconto IRRF: " + FormatCurrencyBr(x.deductionsIrrf) + "\n"
    + "Salário Líquido: " + FormatCurrencyBr(x.netPay) + "\n"
    + "Data de Pagamento: " + ParseDateBr(Text(x.paymentDate), None) + "\n"
  }

  /** One evidence block: the record's lines, closed by the citation. */
  function EvidenceBlock(ev: R.Evidence): string {
    EvidenceLines(ev) + Citation(ev)
  }

  /** `a + c` holds `c`. */
  lemma ContainsSuffix(a: string, c: string)
    ensures Contains(a + c, c)
  {
    ContainsMiddle(a, c, "");
    assert a + c + "" == a + c;
  }

  /** `sep.join(parts)`. */
  function Join(parts: seq<string>, sep: string): (r: string)
    decreases |parts|
  {
    if |parts| == 0 then ""
    else if |parts| == 1 then parts[0]
    else Join(parts[..|parts| - 1], sep) + sep + parts[|parts| - 1]
  }

  /** Every part occurs in the joined text. */
  lemma {:induction false} JoinContains(parts: seq<string>, sep: string, k: nat)
    requires k < |parts|
    ensures Contains(Join(parts, sep), parts[k])
    decreases |parts|
  {
    var n := |parts|;
    if n == 1 {
      ContainsMiddle("", parts[0], "");
      assert "" + parts[0] + "" == parts[0];
    } else if k == n - 1 {
      ContainsMiddle(Join(parts[..n - 1], sep) + sep, parts[k], "");
      assert Join(parts[..n - 1], sep) + sep + parts[k] + "" == Join(parts, sep);
    } else {
      JoinContains(parts[..n - 1], sep, k);
      var j := Join(parts[..n - 1], sep);
      ContainsMiddle("", j, sep + parts[n - 1]);
      assert "" + j + (sep + parts[n - 1]) == Join(parts, sep);
      ContainsTransitive(Join(parts, sep), j, parts[k]);
    }
  }

  /** The joined text starts with the first part. */
  lemma {:induction false} JoinStartsWithFirst(parts: seq<string>, sep: string)
    requires |parts| > 0
    ensures parts[0] <= Join(parts, sep)
    decreases |parts|
  {
    if |parts| > 1 {
      JoinStartsWithFirst(parts[..|parts| - 1], sep);
    }
  }

  /** `[f(x) for x in xs]`. */
  function Map<A, B>(f: A -> B, xs: seq<A>): (ys: seq<B>)
    ensures |ys| == |xs|
    ensures forall k :: 0 <= k < |xs| ==> ys[k] == f(xs[k])
  {
    if xs == [] then [] else Map(f, xs[..|xs| - 1]) + [f(xs[|xs| - 1])]
  }

  /** Mapping over one more element appends its image. */
  lemma MapSnoc<A, B>(f: A -> B, xs: seq<A>, x: A)
    ensures Map(f, xs + [x]) == Map(f, xs) + [f(x)]
  {
    assert (xs + [x])[..|xs|] == xs;
  }

  /** A prefix one element longer. */
  lemma TakeOneMore<T>(xs: seq<T>, i: nat)
    requires i < |xs|
    ensures xs[..i + 1] == xs[..i] + [xs[i]]
  {
  }

  /** The blocks of `_format_evidence`, one per evidence, in order. */
  function EvidenceBlocks(evidence: seq<R.Evidence>): seq<string> {
    Map(EvidenceBlock, evidence)
  }

  /** What `_format_evidence` returns: "" for no evidence, else the blocks joined by a blank line. */
  function EvidenceText(evidence: seq<R.Evidence>): (t: string)
    ensures t == "" <==> evidence == []
  {
    if evidence == [] then ""
    else
      var bs := EvidenceBlocks(evidence);
      JoinStartsWithFirst(bs, "\n\n");
      assert |bs[0]| >= |Citation(evidence[0])| > 0;
      Join(bs, "\n\n")
  }

  /** The evidence text cites every record it was given. */
  lemma EvidenceTextCites(evidence: seq<R.Evidence>, k: nat)
    requires k < |evidence|
    ensures Contains(EvidenceText(evidence), Citation(evidence[k]))
  {
    var bs := EvidenceBlocks(evidence);
    JoinContains(bs, "\n\n", k);
    ContainsSuffix(EvidenceLines(evidence[k]), Citation(evidence[k]));
    ContainsTransitive(EvidenceText(evidence), bs[k], Citation(evidence[k]));
  }

  /** `_format_evidence`: builds the blocks one by one, then joins them. */
  method FormatEvidence(evidence: seq<R.Evidence>) returns (text: string)
    ensures text == EvidenceText(evidence)
  {
    if evidence == [] {
      return "";
    }
    var blocks: seq<string> := [];
    var i := 0;
    while i < |evidence|
      invariant 0 <= i <= |evidence|
      invariant blocks == Map(EvidenceBlock, evidence[..i])
    {
      MapSnoc(EvidenceBlock, evidence[..i], evidence[i]);
      TakeOneMore(evidence, i);
      blocks := blocks + [EvidenceBlock(evidence[i])];
      i := i + 1;
    }
    assert evidence[..i] == evidence;
    text := Join(blocks, "\n\n");
  }

  // ---------------------------------------------------------------------
  // _build_conversation_context
  // ---------------------------------------------------------------------

  /** A chat message as the model receives it; a history entry contributes only these two fields. */
  datatype ChatMessage = ChatMessage(role: string, content: string)

  /** `_get_system_prompt`: the fixed instructions, one source line per piece. */
  const SystemPrompt: string :=
    "Você é a CapBot, uma inteligência artificial da Capgemini criada para fazer análises financeiras. Suas responsabilidades incluem:\n"
    + "\n"
    + "1. **Identidade**: Você é a CapBot, uma IA especializada em análises financeiras da Capgemini.\n"
    + "2. **Consultas de Folha de Pagamento**: Responder perguntas sobre salários, descontos, bônus, datas de pagamento, etc.\n"
    + "3. **Formatação Brasileira**: Sempre formate valores monetários em reais (R$ X.XXX,XX) e datas no formato brasileiro (dd/mm/aaaa).\n"
    + "4. **Citação de Fontes**: Sempre cite as fontes dos dados quando disponíveis (ex: \"Fonte: E001, 2025-05\").\n"
    + "5. **Conversa Geral**: Também pode conversar sobre outros tópicos de forma natural e útil.\n"
    + "\n"
    + "**REGRA FUNDAMENTAL:**\n"
    + "- **SEMPRE use os dados fornecidos para responder**\n"
    + "- **NUNCA diga que não tem acesso ou não conhece funcionários se os dados foram fornecidos**\n"
    + "- **SEMPRE responda com base nos dados fornecidos quando disponíveis**\n"
    + "\n"
    + "**Regras importantes:**\n"
    + "- Sempre se apresente como CapBot da Capgemini\n"
    + "- Use sempre formatação brasileira para moeda e datas\n"
    + "- Cite as fontes dos dados quando disponíveis\n"
    + "- Seja preciso com os valores e datas\n"
    + "- Mantenha um tom profissional mas amigável\n"
    + "- Para consultas de folha, use os dados fornecidos para responder\n"
    + "\n"
    + "**Exemplos de formatação:**\n"
    + "- Valores: R$ 8.418,75\n"
    + "- Datas: 28/05/2025\n"
    + "- Fontes: Fonte: E001, 2025-05"

  /** Python truthiness of an optional evidence list. */
  predicate HasEvidence(evidence: Option<seq<R.Evidence>>) {
    evidence.Some? && evidence.value != []
  }

  /** The user's turn: the message, followed by the evidence text when there is evidence. */
  function UserContent(userMessage: string, evidence: Option<seq<R.Evidence>>): (c: string)
    ensures userMessage <= c
    ensures !HasEvidence(evidence) ==> c == userMessage
    ensures HasEvidence(evidence) ==> |c| > |userMessage|
  {
    if HasEvidence(evidence) then userMessage + "\n\nDados relevantes:\n" + EvidenceText(evidence.value)
    else userMessage
  }

  /** The user's turn cites every record of the evidence. */
  lemma UserContentCites(userMessage: string, evidence: seq<R.Evidence>, k: nat)
    requires k < |evidence|
    ensures Contains(UserContent(userMessage, Some(evidence)), Citation(evidence[k]))
  {
    var t := EvidenceText(evidence);
    EvidenceTextCites(evidence, k);
    ContainsSuffix(userMessage + "\n\nDados relevantes:\n", t);
    ContainsTransitive(UserContent(userMessage, Some(evidence)), t, Citation(evidence[k]));
  }

  /** The history entries the context keeps: all of them, or the last five. */
  function Recent(history: Option<seq<ChatMessage>>): (h: seq<ChatMessage>)
    ensures |h| <= 5
    ensures history.Some? ==>
      (|h| == (if |history.value| < 5 then |history.value| else 5) && h == history.value[|history.value| - |h|..])
    ensures history.None? ==> h == []
  {
    if history.None? then []
    else if |history.value| <= 5 then history.value
    else history.value[|history.value| - 5..]
  }

  /** `_build_conversation_context`: the system prompt, the last five history entries in their
      order, and the user's turn. */
  method BuildConversationContext(userMessage: string, history: Option<seq<ChatMessage>>, evidence: Option<seq<R.Evidence>>)
    returns (messages: seq<ChatMessage>)
    ensures |messages| == 2 + |Recent(history)|
    ensures messages[0] == ChatMessage("system", SystemPrompt)
    ensures messages[1..|messages| - 1] == Recent(history)
    ensures messages[|messages| - 1] == ChatMessage("user", UserContent(userMessage, evidence))
  {
    messages := ContextWithPrompt(SystemPrompt, userMessage, history, evidence);
  }

  /** The context assembly for a given system prompt. */
  method ContextWithPrompt(prompt: string, userMessage: string, history: Option<seq<ChatMessage>>, evidence: Option<seq<R.Evidence>>)
    returns (messages: seq<ChatMessage>)
    ensures |messages| == 2 + |Recent(history)|
    ensures messages[0] == ChatMessage("system", prompt)
    ensures messages[1..|messages| - 1] == Recent(history)
    ensures messages[|messages| - 1] == ChatMessage("user", UserContent(userMessage, evidence))
  {
    var system := ChatMessage("system", prompt);
    messages := AppendRecent([system], history);
    var content := userMessage;
    if HasEvidence(evidence) {
      var text := FormatEvidence(evidence.value);
      content := userMessage + "\n\nDados relevantes:\n" + text;
    }
    assert content == UserContent(userMessage, evidence);
    Framed(system, Recent(history), ChatMessage("user", content));
    messages := messages + [ChatMessage("user", content)];
  }

  /** The history loop of the context assembly: appends the last five entries, in order. */
  method AppendRecent(messages: seq<ChatMessage>, history: Option<seq<ChatMessage>>) returns (out: seq<ChatMessage>)
    ensures out == messages + Recent(history)
  {
    out := messages;
    if history.Some? && history.value != [] {
      var recent := history.value;
      if |recent| > 5 {
        recent := recent[|recent| - 5..];
      }
      var i := 0;
      while i < |recent|
        invariant 0 <= i <= |recent|
        invariant out == messages + recent[..i]
      {
        TakeOneMore(recent, i);
        out := out + [ChatMessage(recent[i].role, recent[i].content)];
        i := i + 1;
      }
      assert recent[..i] == recent;
    }
  }

  /** The first element, the middle and the last element of `[a] + mid + [b]`. */
  lemma Framed<T>(a: T, mid: seq<T>, b: T)
    ensures var s := [a] + mid + [b];
      |s| == 2 + |mid| && s[0] == a && s[1..|s| - 1] == mid && s[|s| - 1] == b
  {
    var s := [a] + mid + [b];
    assert s[1..|s| - 1] == mid;
  }

  // ---------------------------------------------------------------------
  // _demo_response
  // ---------------------------------------------------------------------

  const NetPayLead := "Com base nos dados encontrados, o salário líquido foi processado. "
  const InssLead := "O desconto de INSS foi calculado conforme os dados. "
  const BonusLead := "O bônus foi processado conforme os registros. "
  const GenericLead := "Consulta processada com sucesso. "
  const Greeting := "Olá! Sou o assistente de folha de pagamento. Como posso ajudá-lo hoje? (Modo Demo - sem OpenAI)"
  const Wellbeing := "Estou funcionando perfeitamente! Estou aqui para ajudar com consultas de folha de pagamento. (Modo Demo)"
  const SelicRate := "A taxa Selic atual é de aproximadamente 10,50% ao ano. (Modo Demo - dados simulados)"
  const EchoHead := "Recebi sua mensagem: '"
  const EchoTail := "'. Estou funcionando em modo demo. Para funcionalidade completa, configure uma chave válida da OpenAI. (Modo Demo)"

  /** The lead sentence of a demo reply with evidence: net pay, then INSS, then bonus, then generic. */
  function DemoLead(lower: string): string {
    if Contains(lower, "líquido") || Contains(lower, "liquido") then NetPayLead
    else if Contains(lower, "inss") then InssLead
    else if Contains(lower, "bônus") || Contains(lower, "bonus") then BonusLead
    else GenericLead
  }

  /** `_demo_response`: the canned reply used when no model is reachable. */
  function DemoResponse(userMessage: string, evidence: Option<seq<R.Evidence>>): (r: string)
    ensures var lower := Lower(userMessage);
      HasEvidence(evidence) ==>
        (r == DemoLead(lower) + EvidenceText(evidence.value)
         && ((Contains(lower, "líquido") || Contains(lower, "liquido")) ==> NetPayLead <= r))
    ensures var lower := Lower(userMessage);
      !HasEvidence(evidence) ==>
        ((Contains(lower, "olá") || Contains(lower, "oi") ==> r == Greeting)
         && (r == Greeting || r == Wellbeing || r == SelicRate || r == EchoHead + userMessage + EchoTail))
    ensures var lower := Lower(userMessage);
      var plain := !HasEvidence(evidence) && !Contains(lower, "olá") && !Contains(lower, "oi");
      (plain && Contains(lower, "como você está") ==> r == Wellbeing)
      && (plain && !Contains(lower, "como você está") && Contains(lower, "selic") ==> r == SelicRate)
      && (plain && !Contains(lower, "como você está") && !Contains(lower, "selic") ==> r == EchoHead + userMessage + EchoTail)
  {
    var lower := Lower(userMessage);
    if HasEvidence(evidence) then DemoLead(lower) + EvidenceText(evidence.value)
    else if Contains(lower, "olá") || Contains(lower, "oi") then Greeting
    else if Contains(lower, "como você está") then Wellbeing
    else if Contains(lower, "selic") then SelicRate
    else EchoHead + userMessage + EchoTail
  }

  /** Without evidence, any message holding "foi" (as in "Foi pago?") gets the greeting, since
      "oi" is tested first. */
  lemma FoiGetsGreeting(userMessage: string, evidence: Option<seq<R.Evidence>>)
    requires !HasEvidence(evidence) && Contains(Lower(userMessage), "foi")
    ensures DemoResponse(userMessage, evidence) == Greeting
  {
    assert "foi"[1..3] == "oi";
    ContainsAt("foi", "oi", 1);
    ContainsTransitive(Lower(userMessage), "foi", "oi");
  }

  /** A demo reply with evidence cites every record. */
  lemma DemoResponseCites(userMessage: string, evidence: seq<R.Evidence>, k: nat)
    requires k < |evidence|
    ensures Contains(DemoResponse(userMessage, Some(evidence)), Citation(evidence[k]))
  {
    var lead, t := DemoLead(Lower(userMessage)), EvidenceText(evidence);
    EvidenceTextCites(evidence, k);
    ContainsSuffix(lead, t);
    ContainsTransitive(DemoResponse(userMessage, Some(evidence)), t, Citation(evidence[k]));
  }

  // ---------------------------------------------------------------------
  // generate_response
  // ---------------------------------------------------------------------

  /** What a call to a model backend gives: its text, or a failure with the exception's text. */
  datatype Outcome = Succeeded(text: string) | Failed(error: string)

  const OpenAiPlaceholder := "your_openai_api_key_here"
  const GroqPlaceholder := "your_groq_api_key_here"
  const DemoKey := "demo_mode"
  const ErrorHead := "Desculpe, ocorreu um erro ao processar sua mensagem: "

  /** Python truthiness of an optional key. */
  predicate IsSet(key: Option<string>) {
    key.Some? && key.value != ""
  }

  /** A key that is set and is not the template's placeholder. */
  predicate Usable(key: Option<string>, placeholder: string) {
    IsSet(key) && key.value != placeholder
  }

  /** The first test of `generate_response`: no usable OpenAI key (or the demo key) and no Groq key. */
  predicate DemoMode(openAiKey: Option<string>, groqKey: Option<string>) {
    (!IsSet(openAiKey) || openAiKey.value == OpenAiPlaceholder || openAiKey.value == DemoKey) && !IsSet(groqKey)
  }

  /** An OpenAI failure the demo reply covers: its text mentions a quota or the status 429. */
  predicate QuotaError(error: string) {
    Contains(Lower(error), "quota") || Contains(error, "429")
  }

  /** Where the reply of `generate_response` comes from. */
  datatype Choice = UseDemo | UseText(text: string) | ReportError(error: string)

  /** The branching of `generate_response`: demo mode, else Groq first, falling back to OpenAI
      and then to the demo reply; `groq` and `openAi` are what each backend would give if called. */
  function SelectBackend(openAiKey: Option<string>, groqKey: Option<string>, groq: Outcome, openAi: Outcome): (c: Choice)
    ensures DemoMode(openAiKey, groqKey) ==> c == UseDemo
    ensures !Usable(groqKey, GroqPlaceholder) && !Usable(openAiKey, OpenAiPlaceholder) ==> c == UseDemo
    ensures Usable(groqKey, GroqPlaceholder) && groq.Succeeded? ==> c == UseText(groq.text)
    ensures Usable(groqKey, GroqPlaceholder) ==> !c.ReportError?
    ensures Usable(groqKey, GroqPlaceholder) && groq.Failed? ==>
      c == (if Usable(openAiKey, OpenAiPlaceholder) && openAi.Succeeded? then UseText(openAi.text) else UseDemo)
    ensures c.ReportError? <==>
      !DemoMode(openAiKey, groqKey) && !Usable(groqKey, GroqPlaceholder) && Usable(openAiKey, OpenAiPlaceholder)
      && openAi.Failed? && !QuotaError(openAi.error)
    ensures c.ReportError? ==> c.error == openAi.error
    ensures !DemoMode(openAiKey, groqKey) && !Usable(groqKey, GroqPlaceholder) && Usable(openAiKey, OpenAiPlaceholder) ==>
      c == (if openAi.Succeeded? then UseText(openAi.text)
            else if QuotaError(openAi.error) then UseDemo
            else ReportError(openAi.error))
  {
    if DemoMode(openAiKey, groqKey) then UseDemo
    else if Usable(groqKey, GroqPlaceholder) then
      match groq
      case Succeeded(text) => UseText(text)
      case Failed(_) =>
        if Usable(openAiKey, OpenAiPlaceholder) then
          match openAi
          case Succeeded(text) => UseText(text)
          case Failed(_) => UseDemo
        else UseDemo
    else if Usable(openAiKey, OpenAiPlaceholder) then
      match openAi
      case Succeeded(text) => UseText(text)
      case Failed(e) => if QuotaError(e) then UseDemo else ReportError(e)
    else UseDemo
  }

  /** `generate_response`: the text of the chosen source. */
  function GenerateResponse(openAiKey: Option<string>, groqKey: Option<string>, userMessage: string,
                            evidence: Option<seq<R.Evidence>>, groq: Outcome, openAi: Outcome): string
  {
    match SelectBackend(openAiKey, groqKey, groq, openAi)
    case UseDemo => DemoResponse(userMessage, evidence)
    case UseText(text) => text
    case ReportError(e) => ErrorHead + e
  }
}
