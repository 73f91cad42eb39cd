# Payroll assistant: query understanding and record retrieval

This project models the core of a payroll chatbot in Dafny. The chatbot answers questions in
Portuguese about the pay of two employees. It reads a question, recognises one of six intents,
finds the employee and the competency (the `YYYY-MM` pay month) in the text, and looks the
answer up in a table of payroll records. Each answer comes with evidence: the records used and
the CSV line of each. A question outside payroll goes to a web-search path or to a general chat
path.

The model covers:

- **Text helpers** (`Utils`, from `app/utils.py`):
  - competency canonicalisation;
  - extraction of the employee name and of the competency;
  - date reformatting to `DD/MM/YYYY`;
  - query cleaning;
  - amounts in the Brazilian currency format.

  The regular expressions are written out as matchers for their specific patterns. The two
  anchored matchers of `parse_competency` are proved sound and complete for the shape their
  pattern describes. The search matchers of the two extractors are proved sound: a group they
  return occurs in the text. The search over them is proved to return the leftmost match.
- **Record store** (`RagSystem`, from `app/rag_system.py`):
  - class `PayrollRag`, whose rows are preprocessed in place once;
  - the three-tier name search and the competency filters;
  - the single-record lookups;
  - the period total and the largest-bonus scan, as loops proved against specification functions;
  - the CSV line cited by each piece of evidence.
- **Classifier and handlers** (`QueryProcessor`, from `app/query_processor.py`):
  - the ordered keyword classifier;
  - the five intent handlers, each replying with a clarification, a "not found" text or an answer
    with evidence;
  - the hard-coded period extractor.
- **Answer service** (`LlmService`, from `app/llm_service.py`):
  - the payroll keyword gate;
  - the message list sent to a chat model, built by loops;
  - the evidence text;
  - the canned demo replies;
  - the backend fallback order.
- **HTTP layer** (`Api`, from `app/api.py`):
  - the dispatch order of `POST /chat`;
  - the web-search keyword gate;
  - the citations;
  - the two lookup endpoints.
- **Saved-chat list** (`ChatStore`, from `frontend/script.js`):
  - the page's three globals, as class `ChatSession`, whose methods update them in place;
  - each method specified by a function on the state snapshot;
  - the invariant the state keeps: at most twenty chats, with distinct ids.

`Text` holds the Python string operations the code relies on: `lower`, `strip`, `in` and string
order. `Wrappers` holds `Option`.

Where the unit tests and the code disagree, the model follows the code:

- `tests/test_utils.py:60` expects `parse_competency("13/2025")` to be `None`. The code has no
  month range check and returns `"2025-13"` (`Utils.MonthThirteenAccepted`).
- `tests/test_utils.py:100` expects `"2025 maio"` out of `"Salário de 2025 maio"`. The code's last
  pattern `\w+\s+\d{4}` first matches at `de`, so it returns `"de 2025"`
  (`Utils.WordBeforeYearExtracted`).
- `tests/test_rag_system.py:119` expects the payment date as `DD/MM/YYYY`. Records carry
  `str(timestamp)`, which ends in ` 00:00:00`. `strptime` therefore fails and the text comes back
  unchanged (`RagSystem.GetPaymentDateUnchanged`).

Facts about the code that the model proves:

- Some parts of the code can never decide a result. These are:
  - the name-regex fallback of `extract_employee_name_from_query` (`Utils.NameByPatternUnreachable`);
  - the `MM/YYYY` and `YYYY/MM` competency patterns (`Utils.ExtractCompetencyThreePatterns`);
  - the second rule of `_identify_query_type` (`QueryProcessor.LiquidTotalRuleSubsumed`);
  - its soft-hyphen keyword (`QueryProcessor.SoftHyphenEntryDead`).
- Any digit 1 together with "trimestre" selects the first quarter, even in
  "segundo trimestre de 2021" (`QueryProcessor.SecondQuarterWithOne`).
- "Foi pago?" is classified as a payment-date question but fails the payroll gate
  (`LlmService.PaidQuestionMissesGate`).
- Any demo message containing "foi" gets the greeting (`LlmService.FoiGetsGreeting`).

## Model

| member | source | states |
|---|---|---|
| Text.Strip | app/utils.py:31 | `str.strip()` is a slice of its argument with only whitespace cut at either end, and has no whitespace at either end |
| Text.Lower | app/utils.py:83 | `str.lower()` keeps the length and lower-cases each character on its own |
| Text.LexLeTotal | app/rag_system.py:124 | string order, used for the period bounds, is total and antisymmetric |
| Utils.MonthNumber | app/utils.py:34-47 | every value of the month table is two digits |
| Utils.MonthNumberRange | app/utils.py:34-47 | every value of the month table denotes a month from 1 to 12 |
| Utils.MonthCode | app/utils.py:66 | a successful lookup gives one of the table's month numbers |
| Utils.MonthCodeSpec | app/utils.py:34-47 | the lookup succeeds exactly on the abbreviations and full names in the table |
| Utils.MonthNamesLowercase | app/utils.py:34-47 | every key of the table is a non-empty lower-case word |
| Utils.MonthNumberExamples | app/utils.py:35-39 | January, March and May map to "01", "03" and "05" |
| Utils.MonthCodeMarch | app/utils.py:37 | only the accented "março" is a key; "marco" is not found |
| Utils.ParseCompetency | app/utils.py:26-77 | the empty string gives None; every result is a 4- or 5-digit year, a dash and two digits |
| Utils.ParseCompetencyStrip | app/utils.py:31 | surrounding whitespace never changes the result |
| Utils.NumericForms | app/utils.py:50-60 | `YYYY-MM`, `YYYY/MM` and `MM/YYYY` of one year and month all give `YYYY-MM` |
| Utils.YearDashMonthForm | app/utils.py:50-51 | `YYYY-MM` comes back unchanged |
| Utils.YearSlashMonthForm | app/utils.py:54-55 | `YYYY/MM` comes back with its slash replaced by a dash |
| Utils.MonthSlashYearForm | app/utils.py:58-60 | `MM/YYYY` comes back swapped to `YYYY-MM` |
| Utils.MonthThirteenAccepted | app/utils.py:58-60 | "13/2025" gives "2025-13", because there is no month range check |
| Utils.ParseCompetencyFixedPoint | app/utils.py:50-51 | every 7-character result is a fixed point |
| Utils.CenturyYear | app/utils.py:67 | a 4-digit year is kept; a 2- or 3-digit year gets the prefix "20" |
| Utils.MonthNameSlashYear | app/utils.py:63-68 | a month name, a slash and a 2- to 4-digit year give the year (with "20" prefixed unless it has 4 digits), a dash and the month's number |
| Utils.YearSpaceMonthName | app/utils.py:71-75 | a 4-digit year, whitespace and a month name give the year, a dash and the month's number |
| Utils.UnknownMonthName | app/utils.py:63-77 | a word that is not a month name, followed by a slash and a year, gives None |
| Utils.MarcoRejected | app/utils.py:63-77 | "marco/2025" gives None |
| Utils.ThreeDigitYearPrefixed | app/utils.py:67 | "mai/202" gives the 5-digit year "20202" |
| Utils.FiveDigitYearRejected | app/utils.py:50-77 | a 5-digit key is not accepted back, so such a result is not a fixed point |
| Utils.ParseCompetencyExamples | app/utils.py:26-77 | the unit-test examples the code agrees with |
| Utils.MatchNameSlashYear | app/utils.py:63 | a match of `^(\w+)/(\d{2,4})$` gives a word, a slash and 2 to 4 digits making up the whole text |
| Utils.MatchNameSlashYearComplete | app/utils.py:63 | every text of that shape matches, with those two groups |
| Utils.MatchYearSpaceName | app/utils.py:71 | a match of `^(\d{4})\s+(\w+)$` gives 4 digits, whitespace and a word making up the whole text |
| Utils.MatchYearSpaceNameComplete | app/utils.py:71 | every text of that shape matches, with those two groups |
| Utils.Search | app/utils.py:107 | `re.search` gives the group of the leftmost index where the pattern matches, and None when it matches nowhere |
| Utils.SearchFound | app/utils.py:107-109 | a search result is a substring of the searched text |
| Utils.SearchLeftmost | app/utils.py:128 | the search stops at the first index where the pattern matches |
| Utils.SearchMissing | app/utils.py:128 | a pattern that matches at no index is not found |
| Utils.ExtractEmployeeName | app/utils.py:79-114 | the result is None or one of the two roster names; it is a name exactly when the lower-cased query contains "ana" or "bruno"; the tests go in order: "ana souza" gives Ana Souza, then "bruno lima" gives Bruno Lima, then "ana" gives Ana Souza, and with no "ana", "bruno" gives Bruno Lima |
| Utils.NameByPattern | app/utils.py:106-112 | the pattern loop returns only a substring of the query whose lower-case form is a roster name |
| Utils.NameByPatternUnreachable | app/utils.py:85-111 | the pattern loop can accept a name only if the first-name test already succeeded, so it never decides the result |
| Utils.FullNameHoldsFirstName | app/utils.py:82-95 | each full roster name contains its first name |
| Utils.NoNameInQuery | app/utils.py:79-114 | "Salário de maio" names nobody |
| Utils.FirstNameInsideWord | app/utils.py:89-93 | "semana" gives "Ana Souza": the first name is a plain substring test |
| Utils.FullNameFound | app/utils.py:82-86 | "Bruno Lima" is found in any letter case after a prefix without "z" |
| Utils.ExtractCompetency | app/utils.py:116-132 | a result is a substring of the query; there is none exactly when no competency pattern matches; otherwise it is the stripped group of the leftmost match of the first pattern that matches |
| Utils.FirstGroup | app/utils.py:127-132 | the loop gives a substring of the query, and gives one exactly when some pattern matches somewhere; it is the stripped group of the leftmost match of the first pattern that matches, all earlier patterns matching nowhere |
| Utils.SlashFormsSubsumed | app/utils.py:120-123 | wherever `\d{2}/\d{4}` or `\d{4}/\d{2}` matches, `\w+/\d{2,4}` matches at the same index |
| Utils.SlashSearchSubsumed | app/utils.py:119-128 | wherever a slash pattern is found, `\w+/\d{2,4}` is found too |
| Utils.ExtractCompetencyThreePatterns | app/utils.py:119-132 | the result is the same with only patterns 1, 2 and 5 |
| Utils.SeparatorNeeded | app/utils.py:120-121 | `\w+/\d{2,4}` needs a slash and `\d{4}-\d{2}` needs a dash |
| Utils.WithoutSeparators | app/utils.py:119-132 | text without a slash or a dash can only match `\w+\s+\d{4}` |
| Utils.WordBeforeYearExtracted | app/utils.py:124 | "Salário de 2025 maio" gives "de 2025" |
| Utils.MonthSlashYearExtracted | app/utils.py:120 | "Salário de maio/2025" gives "maio/2025" |
| Utils.StrptimeIsoDate | app/utils.py:16 | `strptime` succeeds only on exactly 10 characters that name a real date |
| Utils.FormatDateIso | app/rag_system.py:222 | `isoformat` of a date has the `YYYY-MM-DD` shape and 10 characters |
| Utils.ParseDateBr | app/utils.py:10-24 | the result is either the argument as text or some real date written `DD/MM/YYYY` |
| Utils.DateBrRoundTrip | app/utils.py:17 | a date written `DD/MM/YYYY` (year 1000 or later) reads back as the same date |
| Utils.IsoDateConverted | app/utils.py:15-17 | an ISO date becomes the same date written `DD/MM/YYYY` |
| Utils.TrailingTextUnchanged | app/utils.py:15-24 | an ISO date followed by more text makes `strptime` fail, and the text comes back unchanged |
| Utils.NonexistentDateUnchanged | app/utils.py:15-24 | a 30th of February comes back unchanged |
| Utils.NonStringArgument | app/utils.py:13-22 | a non-string argument comes back as `str()` of it |
| Utils.ParseDateBrExample | app/utils.py:15-17 | "2025-05-28" becomes "28/05/2025" |
| Utils.Sanitize | app/utils.py:137 | each character outside `[\w\s?!.,/\-()]` becomes a space and every other character is kept |
| Utils.CollapseSpaces | app/utils.py:139 | the result has no whitespace other than single spaces, keeps the allowed characters, is empty exactly when its argument is, and starts with whitespace exactly when its argument does |
| Utils.CleanQuery | app/utils.py:134-140 | the result has only allowed characters, single spaces and nothing at either end |
| Utils.CleanQueryFixedPoints | app/utils.py:134-140 | a text is left unchanged exactly when it is already clean |
| Utils.CleanQueryIdempotent | app/utils.py:134-140 | cleaning twice is cleaning once |
| Utils.CollapseKeepsWords | app/utils.py:139 | collapsing whitespace keeps the whitespace-separated words of the text, in order |
| Utils.StripKeepsWords | app/utils.py:140 | stripping keeps the words of the text |
| Utils.CleanIsJoined | app/utils.py:134-140 | a clean text is its words joined by single spaces |
| Utils.CleanQueryJoinsWords | app/utils.py:134-140 | the cleaned query has the words of the sanitised query, in order, and equals them joined by single spaces (`' '.join(s.split())` of the sanitised text) |
| Utils.FormatCurrencyBrSwapsSeparators | app/utils.py:8 | the three replacements exchange `,` and `.` of the US-style amount |
| Utils.GroupSwapped | app/utils.py:8 | grouping with `,` and with `.` puts the separators in the same places |
| Utils.UngroupGroup | app/utils.py:8 | dropping the thousands separators gives the digits back |
| Utils.FormatCurrencyBrRoundTrip | app/utils.py:6-8 | every amount in cents reads back exactly from its formatted text |
| Utils.FormatCurrencyBrExample | app/utils.py:6-8 | 8418.75 is written "R$ 8.418,75" |
| Utils.FormatCurrencyBrZero | app/utils.py:6-8 | 0 is written "R$ 0,00" |
| Utils.NegativeAmount | app/utils.py:6-8 | -1.50 is written "R$ -1,50" |
| RagSystem.PySlice | app/rag_system.py:33 | Python slicing clamps its bounds and agrees with the sequence slice when the bounds are in range |
| RagSystem.FormatCompetencyKey | app/rag_system.py:32-34 | a competency already written `YYYY-MM` is its own formatted form |
| RagSystem.NormalizeName | app/rag_system.py:37 | a normalized name has no capital letter and no whitespace at either end |
| RagSystem.PreprocessedRows | app/rag_system.py:32-40 | every preprocessed row cites CSV line index + 2 and holds the stripped, lower-cased name |
| RagSystem.PayrollRag.constructor | app/rag_system.py:26-40 | the store holds the loaded rows, in order, preprocessed |
| RagSystem.PayrollRag.PreprocessData | app/rag_system.py:26-40 | the loop fills the derived columns of every row and keeps the loaded columns |
| RagSystem.TimestampString | app/rag_system.py:222 | `str()` of a date-only timestamp is the ISO date followed by a time, 19 characters in all |
| RagSystem.ToRecord | app/rag_system.py:210-223 | a record keeps its row's employee id and competency |
| RagSystem.Records | app/rag_system.py:206-225 | one record per row |
| RagSystem.DfToRecords | app/rag_system.py:206-225 | the loop appends the record of each row, in row order |
| RagSystem.RecordsMembers | app/rag_system.py:206-225 | the records of a frame are exactly the records of its rows |
| RagSystem.Select | app/rag_system.py:47 | a mask keeps exactly the rows that pass it |
| RagSystem.SelectAppend | app/rag_system.py:52-56 | selection keeps row order |
| RagSystem.SelectAll | app/rag_system.py:52-56 | a test every row passes selects the whole frame |
| RagSystem.RemovePunctuation | app/rag_system.py:44 | `re.sub(r'[^\w\s]', '', s)` leaves only word and whitespace characters, and leaves such a text unchanged |
| RagSystem.CleanName | app/rag_system.py:44 | the cleaned query holds only word and whitespace characters |
| Utils.Words | app/rag_system.py:59 | `str.split()` gives non-empty words without whitespace |
| Utils.WordsContained | app/rag_system.py:59 | every word of the split is a substring of the text |
| RagSystem.KeywordMatches | app/rag_system.py:59-68 | the keyword tier is empty exactly when no word longer than two characters occurs in a stored name; otherwise it selects the rows holding one such word |
| RagSystem.TieredRows | app/rag_system.py:44-68 | an exact match takes precedence; failing that, a substring match; failing that, the keyword tier |
| RagSystem.SearchEmployee | app/rag_system.py:42-68 | every result is the record of a stored row |
| RagSystem.SearchEmployeeEmptyQuery | app/rag_system.py:44-56 | a query that cleans to "" lists every record, in order, when no stored name is empty |
| RagSystem.SearchByCompetency | app/rag_system.py:70-77 | the result is exactly the records whose competency is the parsed argument, and empty when it does not parse |
| RagSystem.CompetencyMembers | app/rag_system.py:76-77 | the records of the rows selected by competency are exactly those of the rows holding it |
| RagSystem.WithCompetency | app/rag_system.py:90 | the filter keeps exactly the records with that competency, and its first element is the first such record of the list |
| RagSystem.WithCompetencyAppend | app/rag_system.py:90 | the filter distributes over concatenation, so the kept records stay in row order |
| RagSystem.SearchEmployeeCompetency | app/rag_system.py:79-91 | the result is exactly the employee's records in the parsed competency, and empty when it does not parse; a non-empty result starts with the employee's first record in that competency, the one `records[0]` answers from |
| RagSystem.SourceLine | app/rag_system.py:227-233 | the line of the first row with that employee and competency, and 0 when no row matches |
| RagSystem.SourceLineFirst | app/rag_system.py:40 | in a preprocessed store the line is the first match's index + 2 |
| RagSystem.EvidenceFor | app/rag_system.py:100-105 | evidence carries its record's employee id and competency, and the record itself |
| RagSystem.EvidenceLine | app/rag_system.py:40 | evidence for a stored record cites a CSV line of at least 2 |
| RagSystem.GetNetPay | app/rag_system.py:93-107 | None exactly when no record matches; otherwise the first record's net pay and its evidence |
| RagSystem.DeductionKinds | app/rag_system.py:151 | the deduction type is read without regard to case, and a type with no such column gives 0 |
| RagSystem.GetDeduction | app/rag_system.py:144-160 | None exactly when no record matches; otherwise the first record's named deduction and its evidence |
| RagSystem.GetPaymentDate | app/rag_system.py:162-178 | None exactly when no record matches; otherwise `parse_date_br` of the first record's date, and its evidence |
| RagSystem.GetPaymentDateUnchanged | app/rag_system.py:169 | the payment date comes back as the stored timestamp text, not as `DD/MM/YYYY` |
| RagSystem.InPeriod | app/rag_system.py:122-125 | exactly the records whose competency lies between the bounds under string order, at most as many as given |
| RagSystem.InPeriodOrderedBounds | app/rag_system.py:124 | a period holds records only when its start does not come after its end |
| RagSystem.InPeriodOneMonth | app/rag_system.py:124 | a one-month period holds exactly that month's records |
| RagSystem.SumNetPayAppend | app/rag_system.py:130 | the total of two blocks of records is the sum of their totals |
| RagSystem.EvidenceList | app/rag_system.py:133-140 | one evidence per record, in order, with the record's id and competency |
| RagSystem.EvidenceListLines | app/rag_system.py:133-140 | every evidence for stored records cites a CSV line of at least 2 |
| RagSystem.PeriodTotal | app/rag_system.py:115-142 | None exactly when a bound does not parse or no record lies in the period; otherwise the sum of those records' net pay and one evidence each, never an empty list |
| RagSystem.TotalPeriod | app/rag_system.py:109-142 | an answer always carries at least one evidence |
| RagSystem.PayrollRag.GetTotalPeriod | app/rag_system.py:109-142 | the method returns the period total of the employee's records |
| RagSystem.PeriodRecords | app/rag_system.py:122-125 | the filtering loop gives exactly the records of the period, in order |
| RagSystem.BuildEvidence | app/rag_system.py:131-140 | the evidence loop gives one evidence per record, in order |
| RagSystem.BestBonus | app/rag_system.py:186-195 | None exactly when no bonus is positive; otherwise the first record holding the largest bonus |
| RagSystem.MaxBonusOf | app/rag_system.py:186-204 | None exactly when no bonus is positive; otherwise some record's bonus, competency and evidence |
| RagSystem.MaxBonusScan | app/rag_system.py:186-192 | the scan from 0 with strict `>` ends on the first record with the largest positive bonus |
| RagSystem.PayrollRag.GetMaxBonus | app/rag_system.py:180-204 | the method returns the largest bonus of the employee's records, with its competency and evidence |
| QueryProcessor.DropDashes | app/query_processor.py:37 | the four dash characters are deleted and nothing else changes |
| QueryProcessor.NormalizeQuery | app/query_processor.py:37-38 | the normalized text holds none of the four dash characters |
| QueryProcessor.AnyIn | app/query_processor.py:41 | `any(word in q ...)` holds exactly when some word occurs in the text |
| QueryProcessor.LiquidTotalRuleSubsumed | app/query_processor.py:41-49 | the second rule's condition implies the first rule's, so the second rule never fires |
| QueryProcessor.TotalHoldsL | app/query_processor.py:52 | the `'l' in q` test of the third rule is implied by `'total' in q` |
| QueryProcessor.IdentifyQueryType | app/query_processor.py:34-68 | the classifier equals an ordered classifier without the dead rule: net pay or period total, then "total" + "quido", then deduction, payment date, bonus and unknown |
| QueryProcessor.SoftHyphenEntryDead | app/query_processor.py:37-41 | the soft-hyphen spelling of "líquido" never occurs in the normalized text |
| QueryProcessor.LaterRulesOrder | app/query_processor.py:57-68 | without a first-rule word and without "total", deduction beats payment date, which beats bonus; the intent is unknown exactly when none of their words occurs |
| QueryProcessor.ExtractPeriod | app/query_processor.py:171-193 | the result is None or one of the two hard-coded 2025 quarters; a digit 1 with "trimestre", or "primeiro trimestre", gives the first quarter; failing the first-quarter test, "2º trimestre" or "segundo trimestre" gives the second; failing both, "janeiro" with "março" or "marco" gives the first; anything else gives None |
| QueryProcessor.FirstQuarterTestReduced | app/query_processor.py:178 | the first-quarter test holds exactly for a digit 1 with "trimestre", or for "primeiro trimestre" |
| QueryProcessor.PeriodBounds | app/query_processor.py:179-183 | both quarters' bounds are canonical competencies, in order |
| QueryProcessor.OneAndQuarter | app/query_processor.py:178-179 | any text with a digit 1 and "trimestre" gives the first quarter |
| QueryProcessor.SecondQuarterWithOne | app/query_processor.py:178-183 | "segundo trimestre" together with a digit 1 gives the first quarter |
| QueryProcessor.Ask | app/query_processor.py:76 | a clarification is a non-empty message without evidence |
| QueryProcessor.NotFound | app/query_processor.py:80 | a "not found" reply names the employee and carries no evidence |
| QueryProcessor.Answer | app/query_processor.py:82-86 | an answer quotes the amount in Brazilian format and carries the given evidence |
| QueryProcessor.NetPayAnswer | app/query_processor.py:70-86 | a missing name or competency asks for it; a failed lookup reports "not found"; otherwise the net pay is quoted with its one evidence |
| QueryProcessor.NetPayReply | app/query_processor.py:70-86 | the reply is never empty, and any evidence list is non-empty |
| QueryProcessor.TotalPeriodAnswer | app/query_processor.py:88-110 | a missing name or period asks for it; a failed lookup reports "not found"; otherwise the total is quoted with the store's evidence list |
| QueryProcessor.TotalPeriodReply | app/query_processor.py:88-110 | the reply is never empty, and any evidence list is non-empty |
| QueryProcessor.DeductionType | app/query_processor.py:121-123 | the type is "irrf" exactly when the lower-cased query contains "irrf", and "inss" otherwise |
| QueryProcessor.DeductionAnswer | app/query_processor.py:112-133 | a missing name or competency asks for it; a failed lookup reports "not found"; otherwise the deduction is quoted with its one evidence |
| QueryProcessor.DeductionReply | app/query_processor.py:112-133 | the reply is never empty, and any evidence list is non-empty |
| QueryProcessor.PaymentDateAnswer | app/query_processor.py:135-152 | a missing name or competency asks for it; a failed lookup reports "not found"; otherwise the date is quoted with its one evidence |
| QueryProcessor.PaymentDateReply | app/query_processor.py:135-152 | the reply is never empty, and any evidence list is non-empty |
| QueryProcessor.MaxBonusAnswer | app/query_processor.py:154-169 | a missing name asks for it; a failed lookup reports "not found"; otherwise the bonus and its competency are quoted with its one evidence |
| QueryProcessor.MaxBonusReply | app/query_processor.py:154-169 | the reply is never empty, and any evidence list is non-empty |
| QueryProcessor.ProcessQuery | app/query_processor.py:15-32 | there is no message exactly when the intent is unknown, and then no evidence either; any message is non-empty; each intent is answered by its own handler, given the name, the competency, the period or the deduction type extracted from the query |
| QueryProcessor.ProcessQueryEvidence | app/query_processor.py:86-169 | every evidence list a reply carries is non-empty |
| LlmService.IsPayrollQueryIff | app/llm_service.py:214-227 | the gate passes exactly when some keyword occurs in the normalized, lower-cased message |
| LlmService.NetPayWordsInGate | app/llm_service.py:216-222 | the first rule's words other than "lquido" and the soft-hyphen spelling are gate keywords |
| LlmService.LaterWordsInGate | app/llm_service.py:216-222 | every deduction and bonus word, and every date word except "pago", is a gate keyword |
| LlmService.GateCoversClassifier | app/llm_service.py:214-227 | every message with a known intent passes the gate, unless it contains "lquido" or "pago" |
| LlmService.PaidQuestionMissesGate | app/llm_service.py:214-227 | "Foi pago?" is a payment-date question that fails the gate |
| LlmService.JoinContains | app/llm_service.py:187 | every part occurs in the joined text |
| LlmService.EvidenceText | app/llm_service.py:167-187 | the evidence text is empty exactly when there is no evidence |
| LlmService.EvidenceTextCites | app/llm_service.py:173-187 | the evidence text holds the citation `Fonte: <id>, <competency>` of every record |
| LlmService.FormatEvidence | app/llm_service.py:167-187 | the loop builds exactly the evidence text |
| LlmService.UserContent | app/llm_service.py:128-130 | the user's turn starts with the message, is the message alone without evidence, and is longer with evidence |
| LlmService.UserContentCites | app/llm_service.py:128-130 | with evidence, the user's turn cites every record |
| LlmService.Recent | app/llm_service.py:120-121 | the kept history is the last min(5, n) entries, in order, and nothing without a history |
| LlmService.AppendRecent | app/llm_service.py:120-125 | the loop appends exactly the kept history entries |
| LlmService.ContextWithPrompt | app/llm_service.py:104-137 | the context is the prompt, then the kept history in order, then the user's turn: 2 + min(5, n) messages |
| LlmService.BuildConversationContext | app/llm_service.py:104-165 | the same, with the fixed system prompt first |
| LlmService.DemoResponse | app/llm_service.py:189-212 | with evidence, a lead sentence followed by the evidence text, net pay first; without, "olá"/"oi" gives the greeting, else "como você está" the well-being reply, else "selic" the Selic reply, else the message echoed |
| LlmService.FoiGetsGreeting | app/llm_service.py:205-206 | without evidence, any message containing "foi" gets the greeting |
| LlmService.DemoResponseCites | app/llm_service.py:194-202 | a demo reply with evidence cites every record |
| LlmService.SelectBackend | app/llm_service.py:21-59 | demo mode first; a usable Groq key tries Groq, then OpenAI, then the demo reply, and never reports an error; an error is reported only on the OpenAI-only path, with the exception's text; on that path a success gives its text and a quota error the demo reply |
| Api.IsWebSearchQuery | app/api.py:217-228 | the web gate holds exactly when one of its keywords occurs in the lower-cased message |
| Api.WebGateIgnoresCase | app/api.py:227 | a message and its lower-cased form are routed alike by the web gate |
| Api.DropDashesAppend | app/query_processor.py:37 | removing the dash characters of a concatenation removes those of each part |
| Api.SoftHyphenInvisible | app/query_processor.py:37-38 | a soft hyphen anywhere in a message leaves the payroll gate's normalised text unchanged |
| Api.SoftHyphenHidesSelic | app/api.py:217-228 | a soft hyphen inside "selic" hides it from the web gate, although the payroll gate's normalization joins it |
| Api.SourceOf | app/api.py:116 | a source is the citation `<id>, <competency>` without its "Fonte: " prefix |
| Api.Sources | app/api.py:114-116 | one source per evidence, in order, or none without evidence |
| Api.CitationsOf | app/api.py:116 | the list comprehension gives one source per evidence, in order |
| Api.WebSources | app/api.py:140 | the web path cites the result's source, or "Web Search" |
| Api.Chat | app/api.py:94-161 | an exception gives status 500 with "Erro interno: " and its text; otherwise the payroll path, then the web path, then the general path, each with its own evidence and sources |
| Api.KnownIntentTakesPayrollPath | app/api.py:101-123 | a gated message with a known intent is answered on the payroll path, even by a clarification or "not found" text |
| Api.UnknownIntentFallsThrough | app/api.py:101-157 | an unknown intent carries no evidence, and has sources only on the web path |
| Api.EvidenceOnlyFromPayrollPath | app/api.py:101-157 | evidence comes only from the payroll path, is never empty, and has one source per evidence |
| Api.DemoReplyCitesSources | app/api.py:105-123 | in demo mode the payroll reply quotes the citation of every source it lists |
| Api.ConsSorted | app/api.py:184-185 | a value below every element of a strictly sorted list keeps it strictly sorted in front |
| Api.InsertDistinct | app/api.py:184-185 | insertion keeps the list strictly sorted and adds exactly the new value |
| Api.SortedDistinct | app/api.py:184-185 | `list(set(xs))` then `sort()` gives exactly the values of `xs`, strictly ascending |
| Api.CompetenciesOf | app/api.py:184 | the competency of each record, in order |
| Api.EmployeeCompetencies | app/api.py:176-195 | 404 exactly when the search is empty; otherwise every competency of the records found, once each, in ascending order |
| Api.PayrollData | app/api.py:197-215 | 404 exactly when no record matches (always when the competency does not parse); otherwise the first record `search_employee_competency` returns |
| ChatStore.FirstUserIndex | frontend/script.js:76 | `find` stops at the first user message, and finds nothing when there is none |
| ChatStore.GenerateChatTitle | frontend/script.js:74-82 | "Nova Conversa" without a user message; otherwise the first fifty characters of the first one, with "..." exactly when something was cut |
| ChatStore.FirstUserIndexStable | frontend/script.js:76 | the first user message stays first as the conversation grows |
| ChatStore.TitleStable | frontend/script.js:74-82 | once the user has spoken, the title never changes as the conversation grows |
| ChatStore.TitleShape | frontend/script.js:78-79 | the title is a prefix of the first user message, followed by "..." when that message is longer than fifty characters |
| ChatStore.ThemeName | frontend/script.js:645-653 | a known theme gets its Portuguese name, and any other theme is shown as it is |
| ChatStore.Without | frontend/script.js:117 | the filter keeps exactly the chats with another id |
| ChatStore.WithoutAppend | frontend/script.js:117 | the filter keeps the order |
| ChatStore.WithoutAbsent | frontend/script.js:117 | an id no chat has changes nothing |
| ChatStore.WithoutKeepsDistinct | frontend/script.js:117 | the filter keeps ids distinct |
| ChatStore.Find | frontend/script.js:134 | `find` gives a chat with the id, the head when it matches, and nothing exactly when no chat has the id |
| ChatStore.SaveInto | frontend/script.js:117-125 | the saved chat is at the head, no other chat has its id, the others keep their order, and the list holds exactly twenty when more than nineteen other chats exist, otherwise all of them |
| ChatStore.SaveIntoIdempotent | frontend/script.js:117-125 | saving the same chat twice equals saving it once |
| ChatStore.SaveIntoKeepsDistinct | frontend/script.js:117-125 | saving keeps ids distinct |
| ChatStore.SaveId | frontend/script.js:105 | an existing id is kept, and a fresh id is never empty |
| ChatStore.Save | frontend/script.js:102-131 | an empty conversation changes nothing; otherwise the chat goes to the head of the list under its id, which becomes current |
| ChatStore.StartNew | frontend/script.js:84-100 | a non-empty conversation is saved, then the conversation and the current id are cleared |
| ChatStore.Load | frontend/script.js:133-152 | an unknown id changes nothing; otherwise a non-empty conversation with another id is saved first, and the chat's messages become current |
| ChatStore.Delete | frontend/script.js:341-357 | without confirmation nothing changes; otherwise the chats with the id are removed and, if it was open, a new chat is started |
| ChatStore.DeleteOpenChatReappears | frontend/script.js:345-353 | deleting the open, non-empty chat puts it straight back at the head of the list |
| ChatStore.DeleteOpenChatAlwaysReappears | frontend/script.js:345-353 | in every valid state, the deleted open chat is found again afterwards |
| ChatStore.DeleteIntended | frontend/script.js:341-357 | the chats with the id are removed for good, and an open deleted chat is closed without being saved |
| ChatStore.DeleteIntendedKeepsValid | frontend/script.js:345-353 | the corrected delete keeps the state valid |
| ChatStore.Add | frontend/script.js:433-442 | the message is appended, and a user message that is not the first saves the chat at the head of the list under the current id or the clock's, with the rest of the list as `saveCurrentChat` leaves it |
| ChatStore.SaveThenReload | frontend/script.js:102-152 | saving, starting a new chat and loading the saved id gives the conversation back |
| ChatStore.SaveIdempotent | frontend/script.js:102-131 | saving twice in a row equals saving once |
| ChatStore.SaveIntoKeepsEntries | frontend/script.js:117-125 | saving keeps every chat's id and messages non-empty |
| ChatStore.SaveKeepsValid | frontend/script.js:102-131 | saving keeps the state valid: at most twenty chats, distinct non-empty ids |
| ChatStore.WithoutKeepsValid | frontend/script.js:345 | removing chats keeps the state valid |
| ChatStore.StartNewKeepsValid | frontend/script.js:84-100 | starting a new chat keeps the state valid |
| ChatStore.LoadKeepsValid | frontend/script.js:133-152 | loading keeps the state valid |
| ChatStore.DeleteKeepsValid | frontend/script.js:341-357 | deleting keeps the state valid |
| ChatStore.AddKeepsValid | frontend/script.js:433-442 | adding a message keeps the state valid |
| ChatStore.ChatSession.constructor | frontend/script.js:18-21 | the page opens with no conversation, no current id and the saved list, if any |
| ChatStore.ChatSession.SaveCurrentChat | frontend/script.js:102-131 | the globals are updated as `Save` states |
| ChatStore.ChatSession.StartNewChat | frontend/script.js:84-100 | the globals are updated as `StartNew` states |
| ChatStore.ChatSession.LoadChat | frontend/script.js:133-152 | the globals are updated as `Load` states |
| ChatStore.ChatSession.DeleteChat | frontend/script.js:341-357 | the globals are updated as `Delete` states, which re-saves the deleted open chat |
| ChatStore.ChatSession.DeleteChatIntended | frontend/script.js:341-357 | the globals are updated as `DeleteIntended` states |
| ChatStore.ChatSession.AddMessage | frontend/script.js:433-442 | the globals are updated as `Add` states |

## Left out

- Loading the CSV with pandas (`app/rag_system.py:18-24`) is not modelled. The store is built from a sequence of already loaded rows.
- `pd.to_datetime` is not modelled. A payment date is held as a calendar date that exists.
- Floating point is not modelled. Money is held in integer cents, and `format_currency_br` is modelled on cents.
- Python's `str.lower`, `\w` and `\s` are modelled on ASCII and Latin-1 only.
- `datetime.fromisoformat`, used by `parse_date_br` on text holding a `T`, is a parameter: the date it would give, or none.
- Utils.ParseDateBr: states the result only up to some real date written `DD/MM/YYYY`, because the `T` branch depends on that parameter.
- The Groq and OpenAI calls (`app/llm_service.py:61-102`) are not modelled. What each backend would answer is an input.
- LlmService.GenerateResponse: has no contract of its own. `LlmService.SelectBackend` states the decision it follows.
- The web search (`app/web_search.py`) is not modelled. Its result is an input: the printed form of the result dict and its `source` entry.
- Exceptions raised inside `chat` are not modelled as they arise. The text of the exception is an input.
- The status-500 branches of the two lookup endpoints are left out, because nothing in the modelled lookups raises.
- Api.Chat: the conversation history sent with the request is not passed on. The context assembly that uses it is modelled on its own, as `LlmService.BuildConversationContext`.
- `list_employees`, the health and root endpoints, static files, logging and timestamps are left out. They are plumbing outside this core.
- The text of the system prompt is a constant, and nothing is proved about it.
- In `frontend/script.js`, the DOM, `localStorage`, toasts and timers are left out.
- `Date.now()`, `new Date().toISOString()` and the answer to `confirm` are parameters.
- `substring(0, 50)` counts UTF-16 code units in the browser. The model counts characters.
- `getThemeName` on a name inherited by every object (such as `constructor`) is not modelled. The model's table has only the four themes.
- `clearChat` and the clear-all dialog are left out, as are the timestamp of a chat message and `saveConversationHistory`.
- `loadChatHistory` is modelled only as the list the constructor receives. A list that does not parse becomes `None`.

## Findings

| source | as written | input that shows it | evidently intended | confidence | as-written member | corrected member |
|---|---|---|---|---|---|---|
| frontend/script.js:345-353 | `deleteChat` removes the open chat, then calls `startNewChat`, which saves the still-open conversation again under the same id | delete the currently open chat while its conversation is non-empty | the deleted chat is gone from the list, and the open conversation is closed | not executed | ChatStore.DeleteOpenChatReappears | ChatStore.DeleteIntended |
