# MailCraftAI email pipeline, modelled in Dafny

This project models the server side of MailCraftAI's `POST /api/process-latest-email` endpoint. The endpoint does the following:

1. It fetches the last unread email.
2. It runs four language-model agents over the email: the reader (summary), the classifier (category), the responder (first draft) and the critic (verdict).
3. While the critic rejects the draft, it asks the reviser for a new draft and the critic for a new verdict, at most `MAX_REVISIONS` = 2 times.
4. It sends the reply only when the final verdict approves it.

Around each model call there is deterministic code, and the model covers it:

- **`ResponseDraft` and `CriticVerdict`** give the responder's and the critic's results for empty, parsable and unparsable output.
- **`Classify`** is the classifier's normalisation.
- **`ReviseDraft`** is the reviser's result. Its name and order-number extraction re-derives both from the email text with four regular expressions. `RevisePatterns` writes each expression as a leftmost-first, backtracking matcher, beside a declarative description of what a match is.

## Files

| file | module | what it holds |
|---|---|---|
| `wrappers.dfy` | `Wrappers` | `Option` and `Result` (a `Failure` is a thrown error with its message) |
| `text.dfy` | `Text` | the JavaScript whitespace set (`\s` and `trim`), ASCII classes, `trim`, ASCII `toLowerCase`, and the decimal text of a number |
| `completion.dfy` | `Completion` | `completion.choices[0].message.content`, and `content \|\| ""` |
| `classifier_agent.dfy` | `ClassifierAgent` | `(content \|\| "").trim().toLowerCase()` |
| `critic_agent.dfy` | `CriticAgent` | the critic's verdict, with its two fallbacks |
| `response_agent.dfy` | `ResponseAgent` | the responder's draft, with its two fallbacks |
| `revise_patterns.dfy` | `RevisePatterns` | the four regular expressions of the reviser |
| `revise_agent.dfy` | `ReviseAgent` | the reviser's draft: the model's text plus the extracted name and order number |
| `revise_examples.dfy` | `ReviseExamples` | worked examples on concrete texts |
| `process_latest_email.dfy` | `ProcessLatestEmail` | the handler: the reference function `Pipeline` and the class `Handler`, whose `Post` is proved to follow it |
| `pipeline_properties.dfy` | `PipelineProperties` | what one request promises |
| `agent_wiring.dfy` | `AgentWiring` | the agents over one chat-completion backend, and what a sent reply says about the model's answers |

## How the handler is modelled

`route.ts` works by changing state step by step, so it is modelled as the class `ProcessLatestEmail.Handler`. The class holds:

- `timings`, `revisions` and `revisionCount`;
- `calls`, the trace of every agent call and send, in order;
- `ticks`, the number of clock readings so far.

`Post` runs the request with a `while` loop for the revisions. Its postcondition says it ends with exactly the result and state that the reference function `Pipeline` gives. `Pipeline` is a function of a `Services` value, which holds:

- the mailbox fetch;
- each agent, as its result or the message of the error it throws;
- the send;
- `Date.now()`, as its `n`-th reading.

The critic and the reviser are also told which round they are in, so the same prompt may be answered differently each time. The lemmas in `PipelineProperties` state what one request promises. They cover the loop bound and exit, the `revisions` array, the timing keys, the send (at most once, only on approval, with which mail), the "not sent" result, and the error result.

The agents themselves are connected to the handler in `AgentWiring`. `Wired(svc, b)` says that the agent oracles of `svc` are the modelled agents over one backend `b`. This backend holds the raw completions and `JSON.parse`. Under that assumption, the lemmas follow a sent reply back to what the model actually answered.

## Model

| member | source | states |
|---|---|---|
| `ProcessLatestEmail.Handler.Post` | app/api/process-latest-email/route.ts:12-193 | From an idle handler, the result and the final state (timings, revisions, revisionCount, call trace, clock readings) are exactly those of the reference request `Pipeline` |
| `ProcessLatestEmail.Handler.constructor` | app/api/process-latest-email/route.ts:28-76 | A fresh handler has no timings, no revisions, count 0, no calls and no clock readings |
| `ProcessLatestEmail.Handler.Now` | app/api/process-latest-email/route.ts:14 | `Date.now()` returns the next clock reading and counts it |
| `ProcessLatestEmail.Handler.Start` | app/api/process-latest-email/route.ts:30 | `t0 = Date.now()` before a call: the call is recorded and the clock read |
| `ProcessLatestEmail.Handler.Stop` | app/api/process-latest-email/route.ts:32 | `timings[key] = Date.now() - t0`: only that key changes, to the difference of the two readings |
| `ProcessLatestEmail.Handler.RunFirstPass` | app/api/process-latest-email/route.ts:30-72 | Reader, classifier, responder and critic run in order and end where `FirstPass` does |
| `ProcessLatestEmail.Handler.RunClassification` | app/api/process-latest-email/route.ts:38-72 | From the summary on, the run ends where `Classification` does |
| `ProcessLatestEmail.Handler.RunDrafting` | app/api/process-latest-email/route.ts:46-72 | From the category on, the run ends where `Drafting` does |
| `ProcessLatestEmail.Handler.RunCritique` | app/api/process-latest-email/route.ts:58-65 | One timed critic call ends where `Critique` does |
| `ProcessLatestEmail.Handler.RunLoop` | app/api/process-latest-email/route.ts:76-127 | The `while` loop ends in the state and stage of the recursive reference `Loop` (invariant: what is left of the loop equals what the reference has left) |
| `ProcessLatestEmail.Handler.RunRevision` | app/api/process-latest-email/route.ts:78-126 | One loop body counts, revises, critiques and pushes the verdict exactly as `Revision` does |
| `ProcessLatestEmail.Handler.CountRevision` | app/api/process-latest-email/route.ts:78 | `revisionCount += 1`, nothing else changes |
| `ProcessLatestEmail.Handler.PushRevision` | app/api/process-latest-email/route.ts:117 | `revisions.push(critic)`, nothing else changes |
| `ProcessLatestEmail.Handler.RunGate` | app/api/process-latest-email/route.ts:129-178 | The gate ends in the result and state of `Gate` |
| `ProcessLatestEmail.ErrorText` | app/api/process-latest-email/route.ts:189 | `error.message \|\| "Unexpected error"` is never empty, and is the message whenever it is non-empty |
| `ProcessLatestEmail.Revision` | app/api/process-latest-email/route.ts:78-117 | A revision that gets through keeps the email, summary and category, and raises the count by exactly one |
| `PipelineProperties.NoUnreadEmailSpec` | app/api/process-latest-email/route.ts:17-26 | The result is "No unread emails found" with status 200 exactly when the fetch finds nothing; then no agent is called, no timing is recorded and nothing is sent |
| `PipelineProperties.LoopSpec` | app/api/process-latest-email/route.ts:76-127 | The loop runs at most twice and stops exactly when the verdict approves or the count reaches 2. It keeps `revisions.length == revisionCount`, with the last revision being the final verdict and every earlier verdict a rejection. It adds the keys `revise{k}Ms` / `criticRevision{k}Ms`. An approved verdict on entry leaves everything unchanged |
| `PipelineProperties.LoopTrace` | app/api/process-latest-email/route.ts:76-127 | Every call of the loop returns, except possibly a last one that throws; the loop sends nothing |
| `PipelineProperties.LoopDraft` | app/api/process-latest-email/route.ts:87-94 | The draft the loop ends with is the responder's when there was no revision, otherwise the reviser's answer in the last round |
| `PipelineProperties.RevisionSpec` | app/api/process-latest-email/route.ts:78-117 | One revision: count k+1, the reviser is shown the previous draft and verdict, the critic judges exactly the revised draft, the verdict is appended to `revisions`, and both keys of round k+1 are added |
| `PipelineProperties.RevisionTrace` | app/api/process-latest-email/route.ts:88-113 | A revision's calls all return, or the last one threw; nothing is sent |
| `PipelineProperties.VerdictsExtend` | app/api/process-latest-email/route.ts:108-117 | Pushing a new verdict after a rejected one keeps "every verdict but the last rejected" |
| `PipelineProperties.CritiqueSpec` | app/api/process-latest-email/route.ts:58-65 | A critique calls the critic once, on exactly this draft; the verdict is its answer and only `key` is added to the timings |
| `PipelineProperties.CritiqueTrace` | app/api/process-latest-email/route.ts:58-65 | The critic call returns, or the stage ends with it thrown |
| `PipelineProperties.DraftingSpec` | app/api/process-latest-email/route.ts:46-65 | The first draft is the responder's answer, and the first verdict is the critic's answer on it (round 0) |
| `PipelineProperties.DraftingRecord` | app/api/process-latest-email/route.ts:46-65 | Responder then critic are called, timed as `responseMs` and `criticMs` |
| `PipelineProperties.DraftingTrace` | app/api/process-latest-email/route.ts:46-65 | Every call returns, or the last one threw; nothing is sent |
| `PipelineProperties.ClassificationSpec` | app/api/process-latest-email/route.ts:38-65 | The category passed on is the classifier's answer, unchecked; responder and critic follow |
| `PipelineProperties.ClassificationRecord` | app/api/process-latest-email/route.ts:38-65 | Classifier, responder and critic are called in that order and timed under their three keys |
| `PipelineProperties.ClassificationTrace` | app/api/process-latest-email/route.ts:38-65 | Every call returns, or the last one threw; nothing is sent |
| `PipelineProperties.FirstPassSpec` | app/api/process-latest-email/route.ts:30-72 | Summary, category, draft and verdict are the four agents' answers, each given the previous one's output |
| `PipelineProperties.FirstPassCalls` | app/api/process-latest-email/route.ts:30-72 | The calls are reader, classifier, responder, critic, in that order, with those arguments |
| `PipelineProperties.FirstPassTimings` | app/api/process-latest-email/route.ts:32-65 | The first pass records exactly `readerMs`, `classifierMs`, `responseMs` and `criticMs` |
| `PipelineProperties.FirstPassTrace` | app/api/process-latest-email/route.ts:30-72 | Every call returns, or the last one threw; nothing is sent |
| `PipelineProperties.ReviewedSpec` | app/api/process-latest-email/route.ts:28-127 | At the gate: at most 2 revisions, one verdict per revision, every verdict but the last rejected, the loop stopped for approval or the bound, and the timings are the four stage keys plus those of each revision. A first approval means nothing was revised |
| `PipelineProperties.ReviewedDraft` | app/api/process-latest-email/route.ts:30-94 | At the gate the summary is the reader's, the category the classifier's, and the draft that of the last round |
| `PipelineProperties.GateSpec` | app/api/process-latest-email/route.ts:129-178 | The result is "sent" exactly when the verdict approves and the send returns, and "not sent" exactly when it rejects. "Not sent" carries the verdict, revisions and timings; "sent" carries summary, category, response, verdict, revisions and timings plus `sendMs`. A thrown stage is the error result |
| `PipelineProperties.GateTrace` | app/api/process-latest-email/route.ts:129-153 | `sendEmail(email.from, "Re: " + subject, reply)` is called exactly once when the verdict approves, otherwise never; a failed request ends with exactly one thrown call |
| `PipelineProperties.SendSpec` | app/api/process-latest-email/route.ts:129-153 | Over the whole request `sendEmail` is called at most once, exactly when the final verdict approves, with the sender, "Re: " and the subject, and the approved reply |
| `PipelineProperties.SentSpec` | app/api/process-latest-email/route.ts:150-178 | A sent reply was approved by the critic in the last round on exactly that response. At most 2 revisions happened and every earlier verdict rejected. One mail went out. The timings are the stage keys, the revision keys and `sendMs`. The message is "Reply sent successfully" |
| `PipelineProperties.SentProvenance` | app/api/process-latest-email/route.ts:30-94 | A sent result carries the reader's summary and the classifier's category of it. Its draft is the responder's when nothing was revised, otherwise the reviser's in the last round |
| `PipelineProperties.NotSentSpec` | app/api/process-latest-email/route.ts:129-147 | "Not sent": the final verdict rejects, both revisions happened and every verdict rejected, nothing was sent, the timings are the stage keys and both rounds' keys, and the message is the "Email not sent." one |
| `PipelineProperties.FirstApprovedSpec` | app/api/process-latest-email/route.ts:77-152 | A first approval means no revision and the responder's own draft is the one mailed (or the send throws and the request fails) |
| `PipelineProperties.FailureSpec` | app/api/process-latest-email/route.ts:179-191 | A request fails exactly when the fetch or some call threw. The error text is that message or "Unexpected error", with status 500 and no message field. Otherwise every call returned and the status is 200 |
| `PipelineProperties.ReviseKeyInjective` | app/api/process-latest-email/route.ts:95-115 | `revise${k}Ms` and `criticRevision${k}Ms` determine k, and never coincide |
| `PipelineProperties.RevisionKeysSpec` | app/api/process-latest-email/route.ts:95-115 | After n revisions, `revise{k}Ms` and `criticRevision{k}Ms` are recorded exactly for k = 1..n |
| `PipelineProperties.RevisionKeysOnly` | app/api/process-latest-email/route.ts:95-115 | The revision keys after n rounds are those of rounds 1..n and nothing else |
| `PipelineProperties.RevisionKeyIsNotStageKey` | app/api/process-latest-email/route.ts:95-115 | No revision key is `readerMs`, `classifierMs`, `responseMs`, `criticMs` or `sendMs` |
| `PipelineProperties.StageKeysDistinct` | app/api/process-latest-email/route.ts:32-65 | The four stage keys are distinct and none is `sendMs` |
| `PipelineProperties.KeysDisjoint` | app/api/process-latest-email/route.ts:32-153 | Stage keys, revision keys and `sendMs` never clash, so `sendMs` is present only on the sent path |
| `AgentWiring.SentOnModelApproval` | app/api/process-latest-email/route.ts:129-152 | Wired to a backend, a reply is sent only if the critic's completion in the last round was non-empty and parsed to an approving verdict: neither critic fallback can lead to a send |
| `AgentWiring.SentCategory` | agents/classifier_agent.ts:16 | Wired to a backend, the category in a sent result is the classifier's completion on the reader's summary, trimmed and lower-cased, with no surrounding whitespace and no capitals |
| `AgentWiring.SentFirstDraft` | agents/response_agent.ts:45-64 | Wired to a backend, a reply sent without revision is the responder's draft, and a name or order number in it comes only from JSON the model returned |
| `AgentWiring.SentRevisedDraft` | agents/revise_agent.ts:35-47 | Wired to a backend, a revised reply that is sent is the reviser's draft. Its name and order number are absent, or text of the captured shape found in the email |
| `Completion.OrEmpty` | agents/revise_agent.ts:35 | `content \|\| ""` is empty exactly when the content is missing or empty, and otherwise is the content |
| `ClassifierAgent.Classify` | agents/classifier_agent.ts:16 | Missing or empty content gives "" |
| `ClassifierAgent.ClassifySpec` | agents/classifier_agent.ts:16 | The category has no leading or trailing whitespace and no capitals, and it is a lower-cased slice of the content with only whitespace outside it |
| `ClassifierAgent.ClassifyNormalised` | agents/classifier_agent.ts:16 | The category has no surrounding whitespace and no ASCII capitals |
| `ClassifierAgent.TrimmedLowered` | agents/classifier_agent.ts:16 | Lower-casing the trimmed slice gives the lowered slice of the content at the same place |
| `ClassifierAgent.ClassifyPassesThrough` | agents/classifier_agent.ts:16 | There is no membership check: every normalised token comes back unchanged |
| `ClassifierAgent.ClassifyIdempotent` | agents/classifier_agent.ts:16 | Normalising a category again changes nothing |
| `Text.Lower` | agents/classifier_agent.ts:16 | The result is never a capital; capitals map to their lower case (code + 32), everything else is unchanged |
| `Text.LowerKeepsSpace` | agents/classifier_agent.ts:16 | Lower-casing neither creates nor removes whitespace |
| `Text.LowerAll` | agents/classifier_agent.ts:16 | Same length, each character lower-cased |
| `Text.TrimStart` | agents/classifier_agent.ts:16 | A suffix of the input, everything cut off is whitespace, and it does not start with whitespace |
| `Text.TrimEnd` | agents/classifier_agent.ts:16 | A prefix of the input, everything cut off is whitespace, and it does not end with whitespace |
| `Text.Trim` | agents/classifier_agent.ts:16 | A slice of the input with only whitespace outside it, neither starting nor ending with whitespace |
| `Text.TrimIdempotent` | agents/classifier_agent.ts:16 | A string without surrounding whitespace is its own trim |
| `Text.NatToString` | app/api/process-latest-email/route.ts:95 | A non-empty run of digits, of length 1 exactly for numbers below 10 |
| `Text.NatToStringInjective` | app/api/process-latest-email/route.ts:95-115 | Different numbers have different decimal texts |
| `CriticAgent.CriticVerdict` | agents/critic_agent.ts:33-49 | Missing or empty content gives `{approved: false, critique: "No response from model"}`. Parsed content is returned unchanged. Unparsable content gives a rejection whose critique is "Failed to parse critic JSON: " followed by the raw content. Approval is only ever a parsed answer |
| `CriticAgent.RawContent` | agents/critic_agent.ts:47 | Recovers the raw model output from a parse-failure critique, exactly when the critique has that prefix |
| `CriticAgent.FallbackVerdictsReject` | agents/critic_agent.ts:33-49 | Both fallback verdicts reject |
| `ResponseAgent.ResponseDraft` | agents/response_agent.ts:45-64 | Missing or empty content gives `{reply: "", username: null, orderNumber: null}`. Parsed content is returned unchanged. Unparsable content becomes the reply verbatim with both fields null. A name or order number appears only in a parsed answer |
| `ReviseAgent.ReviseDraft` | agents/revise_agent.ts:35 | The reply is empty exactly when the content is missing or empty, and otherwise is the content |
| `ReviseAgent.ReviseDraftSpec` | agents/revise_agent.ts:37-47 | A name in the draft is two or more ASCII letters and an order number is letters, digits and hyphens, each taken from the email text |
| `ReviseAgent.UsernameSpec` | agents/revise_agent.ts:37-46 | The name is null exactly when neither pattern matches anywhere. Otherwise it is group 1 of the leftmost greeting match, or, when no greeting matches, of the leftmost name-label match |
| `ReviseAgent.OrderNumberSpec` | agents/revise_agent.ts:40-47 | The order number is null exactly when neither pattern matches. Otherwise it is group 1 of the leftmost, preferred order-label match, or, when there is none, of the leftmost fallback match |
| `ReviseAgent.UsernameShape` | agents/revise_agent.ts:38-39 | A found name is two or more ASCII letters, captured after a greeting word and whitespace or after `name:`/`name-`, and occurs in the email |
| `ReviseAgent.GreetingFound` | agents/revise_agent.ts:38 | The greeting's group 1 is captured at a match position in the email |
| `ReviseAgent.NameLabelFound` | agents/revise_agent.ts:39 | The name label's group 1 is captured at a match position in the email |
| `ReviseAgent.CapturedNameIsName` | agents/revise_agent.ts:38-39 | A captured name is made of ASCII letters only (`[A-Z][a-zA-Z]+` under /i) |
| `ReviseAgent.OrderLabelShape` | agents/revise_agent.ts:41 | A labelled order number follows "order", the optional suffix and separators, is letters, digits and hyphens, and occurs in the email |
| `ReviseAgent.OrderLabelFound` | agents/revise_agent.ts:41 | The labelled pattern's group 1 is captured from some decomposition of a match |
| `ReviseAgent.OrderLabelDecomposed` | agents/revise_agent.ts:41 | What the order-label matcher reports is group 1 of a decomposition of the regex |
| `ReviseAgent.RunIsOrderCode` | agents/revise_agent.ts:41-42 | A non-empty run of order characters taken from the email is an order code |
| `ReviseAgent.FallbackShape` | agents/revise_agent.ts:42 | A fallback order number is a `\b`-delimited run of six or more capitals and digits occurring in the email |
| `ReviseAgent.ExtractionIgnoresModel` | agents/revise_agent.ts:37-47 | Name and order number depend only on the email text, never on the model's output, the previous draft or the critique |
| `RevisePatterns.RunEnd` | agents/revise_agent.ts:38-42 | A greedy repetition stops at the first character outside the class |
| `RevisePatterns.RunEndUnique` | agents/revise_agent.ts:38-42 | A run that cannot be extended is the one the greedy repetition takes |
| `RevisePatterns.WordsExclusive` | agents/revise_agent.ts:38 | Keywords that differ somewhere cannot both match at one position |
| `RevisePatterns.WordStartsWithLetter` | agents/revise_agent.ts:41 | A keyword starting with a letter does not start on whitespace |
| `RevisePatterns.FirstMatchFrom` | agents/revise_agent.ts:38-42 | `match` reports the first position at which the regex matches, and none before it, or reports no match when it matches nowhere |
| `RevisePatterns.FirstMatchSkips` | agents/revise_agent.ts:38-42 | Positions where the regex fails are passed over |
| `RevisePatterns.FirstMatchIff` | agents/revise_agent.ts:38-42 | The search finds position i with group g exactly when the regex matches at i with g and at no earlier position |
| `RevisePatterns.MatchNameAfter` | agents/revise_agent.ts:38-39 | `\s+`/`\s*` then `([A-Z][a-zA-Z]+)`: a match is a decomposition into whitespace and two or more letters, taken greedily |
| `RevisePatterns.MatchNameAfterIff` | agents/revise_agent.ts:38-39 | The name matcher returns exactly the one decomposition that exists |
| `RevisePatterns.MatchGreetingAt` | agents/revise_agent.ts:38 | What the greeting matcher returns at a position is a greeting match there |
| `RevisePatterns.MatchGreetingAtIff` | agents/revise_agent.ts:38 | At each position there is at most one greeting match, and the matcher finds it |
| `RevisePatterns.GreetingSpec` | agents/revise_agent.ts:38 | The greeting regex finds nothing exactly when no greeting match exists; otherwise its group is that of the leftmost one |
| `RevisePatterns.MatchNameLabelAt` | agents/revise_agent.ts:39 | What the name-label matcher returns is a name-label match |
| `RevisePatterns.MatchNameLabelAtIff` | agents/revise_agent.ts:39 | The name-label matcher finds exactly the match at that position |
| `RevisePatterns.NameLabelSpec` | agents/revise_agent.ts:39 | The name-label regex finds nothing exactly when no match exists; otherwise its group is that of the leftmost one |
| `RevisePatterns.SuffixEnd` | agents/revise_agent.ts:41 | Each alternative of `(?:\s*number\|#\| no\.?)?` ends where its description says |
| `RevisePatterns.SuffixEndIff` | agents/revise_agent.ts:41 | Each alternative has at most one end, and `SuffixEnd` finds it |
| `RevisePatterns.MatchTail` | agents/revise_agent.ts:41 | What `\s*[:\-]?\s*([A-Z0-9\-]+)` captures is a non-empty span inside the text |
| `RevisePatterns.TailWithSeparator` | agents/revise_agent.ts:41 | The tail that takes the separator, characterised by greedy runs |
| `RevisePatterns.TailWithoutSeparator` | agents/revise_agent.ts:41 | The tail that leaves the separator out, characterised by greedy runs |
| `RevisePatterns.MatchTailIff` | agents/revise_agent.ts:41 | The tail matcher returns the decomposition backtracking reaches first (separator taken when possible), and nothing exactly when none exists |
| `RevisePatterns.AltIff` | agents/revise_agent.ts:41 | Alternative `alt` leads to a match exactly when the tail matches after it, and then to exactly that group |
| `RevisePatterns.AltMatchesIff` | agents/revise_agent.ts:41 | Some decomposition uses alternative `alt` exactly when the tail matches after it |
| `RevisePatterns.AltGroupIff` | agents/revise_agent.ts:41 | After alternative `alt`, the tail's group is the one that alternative leads to |
| `RevisePatterns.MatchOrderLabelFrom` | agents/revise_agent.ts:41 | What the alternatives loop returns is a non-empty span inside the text |
| `RevisePatterns.MatchOrderLabelAt` | agents/revise_agent.ts:41 | What the order-label matcher returns is a non-empty span inside the text |
| `RevisePatterns.MatchOrderLabelFromIff` | agents/revise_agent.ts:41 | Trying the alternatives in order finds the first one that leads to a match, and nothing exactly when none does |
| `RevisePatterns.MatchOrderLabelFromSome` | agents/revise_agent.ts:41 | The group found is that of the first alternative leading to a match |
| `RevisePatterns.MatchOrderLabelFromNone` | agents/revise_agent.ts:41 | Nothing is found exactly when no alternative leads to a match |
| `RevisePatterns.AltBeyondLast` | agents/revise_agent.ts:41 | The optional group has exactly five alternatives |
| `RevisePatterns.MatchOrderLabelAtIff` | agents/revise_agent.ts:41 | At each position the matcher returns the group of the preferred decomposition, and nothing exactly when no decomposition exists |
| `RevisePatterns.PreferredMatches` | agents/revise_agent.ts:41 | The preferred decomposition is a decomposition |
| `RevisePatterns.OrderLabelSpec` | agents/revise_agent.ts:41 | The order-label regex finds nothing exactly when no match exists; otherwise its group is that of the preferred decomposition at the leftmost position |
| `RevisePatterns.MatchFallbackAt` | agents/revise_agent.ts:42 | What the fallback matcher returns is a fallback match at that position |
| `RevisePatterns.MatchFallbackAtIff` | agents/revise_agent.ts:42 | The fallback matcher finds exactly the match at that position |
| `RevisePatterns.FallbackSpec` | agents/revise_agent.ts:42 | The fallback regex finds nothing exactly when no `\b`-delimited run of 6+ capitals and digits exists; otherwise it finds the leftmost one |
| `ReviseExamples.OrderedCapturesEd` | agents/revise_agent.ts:41 | "I ordered" gives the order number "ed": there is no word boundary after "order" |
| `ReviseExamples.OrderedTail` | agents/revise_agent.ts:41 | In "I ordered" every suffix alternative but the empty one fails and the tail takes "ed" |
| `ReviseExamples.BacktracksOverNumber` | agents/revise_agent.ts:41 | "order number?" gives the order number "number": backtracking leaves the optional group out |
| `ReviseExamples.NumberTail` | agents/revise_agent.ts:41 | After `\s*number` nothing is left for the tail, so the empty alternative wins |
| `ReviseExamples.FallbackFindsCode` | agents/revise_agent.ts:40-42 | "Ref ABC123" has no "order", so the case-sensitive fallback skips "Ref" and gives "ABC123" |
| `ReviseExamples.NoOrderLabelInRef` | agents/revise_agent.ts:41 | "Ref ABC123" has no order-label match |
| `ReviseExamples.NoFallbackBeforeCode` | agents/revise_agent.ts:42 | No fallback match starts inside "Ref " |
| `ReviseExamples.FallbackAtCode` | agents/revise_agent.ts:42 | The fallback matches "ABC123" at position 4 |
| `ReviseExamples.CodeSlice` | agents/revise_agent.ts:42 | In "Ref ABC123" the characters 4 to 10 are exactly "ABC123", the run that `FallbackFindsCode` says the fallback returns |

## Left out

- **Mail I/O.** `lib/email.ts` (IMAP fetch, SMTP send) is not part of this model. The fetch is an oracle returning no email, an email, or a thrown error. The choice of the last unread message is not reproduced. The send is an oracle that returns or throws.
- **The chat-completion service.** `groq.chat.completions.create`, the prompt texts and the model names are foreign calls. In `AgentWiring.Backend` each agent's completion is an oracle of that agent's structured inputs, rather than of the prompt string built from them.
- **`JSON.parse` with the cast.** This is an abstract partial function that returns the typed value or nothing. Parsed JSON that is not an object of the expected shape (`null`, a number, missing fields) is not represented. The gate depends on this: `!critic.approved` (route.ts:77 and route.ts:129) treats any truthy `approved`, such as `"false"` or `1`, as an approval and sends the mail, and a falsy non-boolean as a rejection. The model's `approved` is a `bool`, so it covers only parsed verdicts whose `approved` really is a boolean.
- **Logging.** `lib/logger.ts` and every `log(...)` call are omitted, because they only write to the console.
- **Clock values.** `Date.now()` values are opaque. The model fixes which readings are subtracted for each timing and for `totalDurationMs`, but nothing about their size.
- **Unicode.** `toLowerCase` is modelled for ASCII only. `trim` and `\s` use the full JavaScript whitespace set. Regex `/i` folding is exact, because a non-Unicode JavaScript regex never folds a non-ASCII character onto an ASCII one.
- ErrorText: a thrown value is modelled by its message string, so the model always answers a failure with `{error}` and status 500. In the source a thrown `null` or `undefined` is logged safely (`error?.message`, route.ts:184), but `error.message` at route.ts:189 then throws a `TypeError` inside the `catch`, and `POST` rejects with no JSON body at all. The model gives `Failed("Unexpected error")` with status 500 instead. A thrown object with no `message` property (or an empty one) does give "Unexpected error", as modelled.
- **Concurrency.** Concurrent `POST` requests are left out: each request runs alone on a fresh `Handler`.
- **Response encoding.** `NextResponse.json` is left out: the response body is the `PostResult` datatype, with `Message` and `Status` for the message and the status code.
- **The reader agent.** `agents/reader_agent.ts` is a context file. It appears only as `AgentWiring.RunReader` (`content || ""`) and in `Wired`.
