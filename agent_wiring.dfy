/** The agents as the route wires them: each one asks the chat-completion backend
    once and post-processes what comes back (`readerAgent` keeps the text,
    `classifierAgent` trims and lower-cases it, `responseAgent` and `criticAgent`
    parse it as JSON with their fallbacks, `reviseAgent` keeps the text and extracts
    name and order number from the email). `Wired` says that the agent oracles of a
    `Services` are exactly these, over one backend; the lemmas then follow a sent
    reply back to what the model actually answered. */
module AgentWiring {
  import opened Wrappers
  import opened Completion
  import opened ClassifierAgent
  import opened ResponseAgent
  import opened CriticAgent
  import opened ReviseAgent
  import opened ProcessLatestEmail
  import opened PipelineProperties

  /** The chat-completion backend: for each agent, the content of
      `completion.choices[0].message.content` for the prompt built from its inputs
      (or the message of the error the request throws), and `JSON.parse` with the
      unchecked cast (None when it throws). The critic and the reviser are also given
      their round, so that the same prompt may be answered differently each time. */
  datatype Backend = Backend(
    readerCompletion: string -> Result<Content, string>,
    classifierCompletion: string -> Result<Content, string>,
    responderCompletion: (string, string) -> Result<Content, string>,
    criticCompletion: (nat, CriticAgentParams) -> Result<Content, string>,
    reviserCompletion: (nat, ReviseAgentParams) -> Result<Content, string>,
    parseDraft: string -> Option<ResponseAgentResult>,
    parseVerdict: string -> Option<CriticAgentResult>)

  /** `readerAgent(email)`: `content || ""`. */
  function RunReader(b: Backend, emailText: string): Result<string, string>
  {
    match b.readerCompletion(emailText)
    case Failure(m) => Failure(m)
    case Success(content) => Success(OrEmpty(content))
  }

  /** `classifierAgent(summary)` */
  function RunClassifier(b: Backend, summary: string): Result<string, string>
  {
    match b.classifierCompletion(summary)
    case Failure(m) => Failure(m)
    case Success(content) => Success(Classify(content))
  }

  /** `responseAgent(emailText, summary)` */
  function RunResponder(b: Backend, emailText: string, summary: string): Result<ResponseAgentResult, string>
  {
    match b.responderCompletion(emailText, summary)
    case Failure(m) => Failure(m)
    case Success(content) => Success(ResponseDraft(content, b.parseDraft))
  }

  /** `criticAgent(params)` in round `round` */
  function RunCritic(b: Backend, round: nat, params: CriticAgentParams): Result<CriticAgentResult, string>
  {
    match b.criticCompletion(round, params)
    case Failure(m) => Failure(m)
    case Success(content) => Success(CriticVerdict(content, b.parseVerdict))
  }

  /** `reviseAgent(params)` in round `round` */
  function RunReviser(b: Backend, round: nat, params: ReviseAgentParams): Result<ResponseAgentResult, string>
  {
    match b.reviserCompletion(round, params)
    case Failure(m) => Failure(m)
    case Success(content) => Success(ReviseDraft(params, content))
  }

  /** The handler's agents are the agent modules over the backend `b`. */
  ghost predicate Wired(svc: Services, b: Backend) {
    && (forall t :: svc.reader(t) == RunReader(b, t))
    && (forall s :: svc.classifier(s) == RunClassifier(b, s))
    && (forall t, s :: svc.responder(t, s) == RunResponder(b, t, s))
    && (forall k, p :: svc.critic(k, p) == RunCritic(b, k, p))
    && (forall k, p :: svc.reviser(k, p) == RunReviser(b, k, p))
  }

  /** A reply goes out only on a verdict the model really gave: the critic's completion
      in the last round was non-blank and parsed to an approving verdict. Neither
      fallback ("No response from model", "Failed to parse critic JSON") can lead to
      a send. */
  lemma SentOnModelApproval(svc: Services, b: Backend)
    requires Wired(svc, b) && Pipeline(svc).result.Sent?
    ensures var r := Pipeline(svc).result;
            var email := svc.fetch.value.value;
            var outcome := b.criticCompletion(|r.revisions|, CriticAgentParams(email.text, r.summary, r.classification, r.response));
            && outcome.Success? && !IsBlank(outcome.value)
            && b.parseVerdict(outcome.value.value) == Some(r.critic) && r.critic.approved
  {
    var r := Pipeline(svc).result;
    var email := svc.fetch.value.value;
    var params := CriticAgentParams(email.text, r.summary, r.classification, r.response);
    SentSpec(svc);
    assert svc.critic(|r.revisions|, params) == Success(r.critic);
    var content := b.criticCompletion(|r.revisions|, params).value;
    if IsBlank(content) || b.parseVerdict(content.value).None? {
      FallbackVerdictsReject(content, b.parseVerdict);
    }
  }

  /** The category sent back is the classifier's completion on the reader's summary,
      trimmed and lower-cased: it has no surrounding whitespace and no capitals. */
  lemma SentCategory(svc: Services, b: Backend)
    requires Wired(svc, b) && Pipeline(svc).result.Sent?
    ensures var r := Pipeline(svc).result;
            var email := svc.fetch.value.value;
            && b.readerCompletion(email.text).Success?
            && r.summary == OrEmpty(b.readerCompletion(email.text).value)
            && b.classifierCompletion(r.summary).Success?
            && r.classification == Classify(b.classifierCompletion(r.summary).value)
            && IsNormalised(r.classification)
  {
    var r := Pipeline(svc).result;
    SentProvenance(svc);
    assert svc.reader(svc.fetch.value.value.text) == RunReader(b, svc.fetch.value.value.text);
    assert svc.classifier(r.summary) == RunClassifier(b, r.summary);
    ClassifySpec(b.classifierCompletion(r.summary).value);
  }

  /** A reply sent without revision is the responder's draft: a name or an order
      number in it can only come from JSON the model returned. */
  lemma SentFirstDraft(svc: Services, b: Backend)
    requires Wired(svc, b) && Pipeline(svc).result.Sent? && Pipeline(svc).result.revisions == []
    ensures var r := Pipeline(svc).result;
            var email := svc.fetch.value.value;
            var outcome := b.responderCompletion(email.text, r.summary);
            && outcome.Success? && r.response == ResponseDraft(outcome.value, b.parseDraft)
            && (r.response.username.Some? || r.response.orderNumber.Some? ==>
                  !IsBlank(outcome.value) && b.parseDraft(outcome.value.value) == Some(r.response))
  {
    var r := Pipeline(svc).result;
    var email := svc.fetch.value.value;
    SentProvenance(svc);
    assert svc.responder(email.text, r.summary) == RunResponder(b, email.text, r.summary);
  }

  /** A revised reply that is sent has the model's text as its reply, while its name
      and order number are never the model's: each is absent or a run of the shape its
      regular expression captures, found in the email text. */
  lemma SentRevisedDraft(svc: Services, b: Backend)
    requires Wired(svc, b) && Pipeline(svc).result.Sent? && Pipeline(svc).result.revisions != []
    ensures var r := Pipeline(svc).result;
            var email := svc.fetch.value.value;
            && (exists p: ReviseAgentParams ::
                  && p.emailText == email.text && b.reviserCompletion(|r.revisions|, p).Success?
                  && r.response == ReviseDraft(p, b.reviserCompletion(|r.revisions|, p).value))
            && (r.response.username.Some? ==>
                  IsName(r.response.username.value) && exists k: nat :: OccursAt(email.text, k, r.response.username.value))
            && (r.response.orderNumber.Some? ==>
                  IsOrderCode(r.response.orderNumber.value) && exists k: nat :: OccursAt(email.text, k, r.response.orderNumber.value))
  {
    var r := Pipeline(svc).result;
    var email := svc.fetch.value.value;
    var n := |r.revisions|;
    SentProvenance(svc);
    var previous: ResponseAgentResult, verdict: CriticAgentResult :|
      svc.reviser(n, ReviseAgentParams(email.text, r.summary, r.classification, previous, verdict)) == Success(r.response);
    var p := ReviseAgentParams(email.text, r.summary, r.classification, previous, verdict);
    assert svc.reviser(n, p) == RunReviser(b, n, p);
    var content := b.reviserCompletion(n, p).value;
    assert r.response == ReviseDraft(p, content);
    ReviseDraftSpec(p, content);
  }
}
