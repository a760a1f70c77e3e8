/** `POST /api/process-latest-email`: fetch the last unread email, run the reader,
    classifier, responder and critic agents over it, revise the reply while the critic
    rejects it (at most `MAX_REVISIONS` times), and send it only once the critic has
    approved it.

    Everything the handler calls is an oracle held in `Services`: the mailbox fetch,
    each agent (its result, or the message of the error it threw), the SMTP send,
    and `Date.now()` as the `n`-th clock reading. The module `AgentWiring` ties the
    agent oracles to the agent models over one chat-completion backend.
    `Pipeline` is the reference definition of one request; `Handler.Post` runs it
    step by step on mutable state and is proved to end in exactly the state and
    result `Pipeline` gives. The lemmas state what the handler promises. */
module ProcessLatestEmail {
  import opened Wrappers
  import opened Text
  import opened ResponseAgent
  import opened CriticAgent
  import opened ReviseAgent

  /** `MAX_REVISIONS` */
  const MaxRevisions: nat := 2

  /** What `getLastUnreadEmail` hands back. */
  datatype EmailMessage = EmailMessage(from: string, subject: string, text: string)

  /** The arguments of `sendEmail(to, subject, text)`. */
  datatype OutgoingMail = OutgoingMail(to: string, subject: string, text: string)

  /** The parameters of `criticAgent`. */
  datatype CriticAgentParams = CriticAgentParams(emailText: string, summary: string, classification: string, response: ResponseAgentResult)

  /** The outside world of one request: the mailbox fetch, each agent (its result,
      or the message of the error it throws), the SMTP send, and `Date.now()` as the
      `n`-th clock reading. The critic and the reviser are also given the round they
      are called in (0 for the first critique), so that they may answer the same
      prompt differently each time. */
  datatype Services = Services(
    fetch: Result<Option<EmailMessage>, string>,
    reader: string -> Result<string, string>,
    classifier: string -> Result<string, string>,
    responder: (string, string) -> Result<ResponseAgentResult, string>,
    critic: (nat, CriticAgentParams) -> Result<CriticAgentResult, string>,
    reviser: (nat, ReviseAgentParams) -> Result<ResponseAgentResult, string>,
    send: OutgoingMail -> Result<(), string>,
    clock: nat -> int)

  /** One call the handler makes after the fetch, with its arguments. */
  datatype Call =
    | ReaderCall(emailText: string)
    | ClassifierCall(summary: string)
    | ResponderCall(emailText: string, summary: string)
    | CriticCall(round: nat, params: CriticAgentParams)
    | ReviserCall(round: nat, reviseParams: ReviseAgentParams)
    | SendCall(mail: OutgoingMail)

  /** The response body of `POST` (its `message` and status come from `Message` and `Status`). */
  datatype PostResult =
    | NoUnreadEmail
    | NotSent(critic: CriticAgentResult, revisions: seq<CriticAgentResult>, timings: map<string, int>, totalDurationMs: int)
    | Sent(summary: string, classification: string, response: ResponseAgentResult, critic: CriticAgentResult,
           revisions: seq<CriticAgentResult>, timings: map<string, int>, totalDurationMs: int)
    | Failed(error: string)

  function Message(r: PostResult): Option<string> {
    match r
    case NoUnreadEmail => Some("No unread emails found")
    case NotSent(_, _, _, _) => Some("Critic did not approve the reply after revisions. Email not sent.")
    case Sent(_, _, _, _, _, _, _) => Some("Reply sent successfully")
    case Failed(_) => None
  }

  function Status(r: PostResult): int {
    if r.Failed? then 500 else 200
  }

  /** `error.message || "Unexpected error"` */
  function ErrorText(message: string): (text: string)
    ensures text != ""
    ensures message != "" ==> text == message
  {
    if message == "" then "Unexpected error" else message
  }

  // ---------------------------------------------------------------------------
  // Errors

  /** The message of the error `outcome` carries, if it is one. */
  function ErrorOf<T>(outcome: Result<T, string>): Option<string> {
    if outcome.Failure? then Some(outcome.error) else None
  }

  /** The message of the error `call` throws, if it throws one. */
  function Thrown(svc: Services, call: Call): Option<string> {
    match call
    case ReaderCall(t) => ErrorOf(svc.reader(t))
    case ClassifierCall(s) => ErrorOf(svc.classifier(s))
    case ResponderCall(t, s) => ErrorOf(svc.responder(t, s))
    case CriticCall(k, p) => ErrorOf(svc.critic(k, p))
    case ReviserCall(k, p) => ErrorOf(svc.reviser(k, p))
    case SendCall(mail) => ErrorOf(svc.send(mail))
  }

  // ---------------------------------------------------------------------------
  // Timing keys

  /** `revise${revisionCount}Ms` */
  function ReviseKey(k: nat): string { "revise" + NatToString(k) + "Ms" }

  /** `criticRevision${revisionCount}Ms` */
  function CriticRevisionKey(k: nat): string { "criticRevision" + NatToString(k) + "Ms" }

  const ReaderKey: string := "readerMs"
  const ClassifierKey: string := "classifierMs"
  const ResponseKey: string := "responseMs"
  const CriticKey: string := "criticMs"
  const SendKey: string := "sendMs"

  /** The keys every request that gets past the first critique records. */
  const StageKeys: set<string> := {ReaderKey, ClassifierKey, ResponseKey, CriticKey}

  /** The keys of revisions 1 to `n`. */
  function RevisionKeys(n: nat): set<string> {
    if n == 0 then {} else RevisionKeys(n - 1) + {ReviseKey(n), CriticRevisionKey(n)}
  }

  // ---------------------------------------------------------------------------
  // The reference definition of one request

  /** What the handler has built up: the `timings` record, the `revisions` array,
      `revisionCount`, every call made so far, and how many times it has read the clock. */
  datatype State = State(timings: map<string, int>, revisions: seq<CriticAgentResult>, revisionCount: nat, calls: seq<Call>, ticks: nat)

  /** What the first stages have settled: the email, its summary and its category. */
  datatype Context = Context(email: EmailMessage, summary: string, classification: string)

  /** Where a stage left the request: at a draft with its verdict, or thrown out. */
  datatype Stage =
    | Reached(st: State, ctx: Context, response: ResponseAgentResult, critic: CriticAgentResult)
    | Threw(st: State, message: string)

  /** One request: the response and the state it leaves. */
  datatype Run = Run(result: PostResult, st: State)

  /** The state once `call` is made: the clock is read (`t0`) and the call recorded. */
  function Begin(st: State, call: Call): State {
    st.(calls := st.calls + [call], ticks := st.ticks + 1)
  }

  /** The state once the call begun at the previous clock reading has returned:
      the clock is read again and the difference stored under `key`. */
  function Finish(svc: Services, st: State, key: string): State
    requires st.ticks > 0
  {
    st.(timings := st.timings[key := svc.clock(st.ticks) - svc.clock(st.ticks - 1)], ticks := st.ticks + 1)
  }

  function CriticParams(ctx: Context, response: ResponseAgentResult): CriticAgentParams {
    CriticAgentParams(ctx.email.text, ctx.summary, ctx.classification, response)
  }

  /** The state once `startedAt` has been read. */
  const Started: State := State(map[], [], 0, [], 1)

  /** The request as `POST` runs it. `startedAt` is clock reading 0. */
  function Pipeline(svc: Services): Run {
    match svc.fetch
    case Failure(m) => Run(Failed(ErrorText(m)), Started)
    case Success(None) => Run(NoUnreadEmail, Started)
    case Success(Some(email)) => Gate(svc, Reviewed(svc, email))
  }

  /** The first pass and then the revision loop: where the request stands at the gate. */
  function Reviewed(svc: Services, email: EmailMessage): Stage {
    match FirstPass(svc, email, Started)
    case Threw(st, m) => Threw(st, m)
    case Reached(st, ctx, draft, verdict) => Loop(svc, ctx, st, draft, verdict)
  }

  /** Reader, classifier, responder and critic, each timed. */
  function FirstPass(svc: Services, email: EmailMessage, st: State): Stage {
    var st1 := Begin(st, ReaderCall(email.text));
    match svc.reader(email.text)
    case Failure(m) => Threw(st1, m)
    case Success(summary) => Classification(svc, email, summary, Finish(svc, st1, ReaderKey))
  }

  /** From the summary on: classifier, responder and critic. */
  function Classification(svc: Services, email: EmailMessage, summary: string, st: State): Stage {
    var st1 := Begin(st, ClassifierCall(summary));
    match svc.classifier(summary)
    case Failure(m) => Threw(st1, m)
    case Success(classification) =>
      Drafting(svc, Context(email, summary, classification), Finish(svc, st1, ClassifierKey))
  }

  /** From the category on: responder and critic. */
  function Drafting(svc: Services, ctx: Context, st: State): Stage {
    var st1 := Begin(st, ResponderCall(ctx.email.text, ctx.summary));
    match svc.responder(ctx.email.text, ctx.summary)
    case Failure(m) => Threw(st1, m)
    case Success(draft) => Critique(svc, ctx, 0, CriticKey, draft, Finish(svc, st1, ResponseKey))
  }

  /** The critic's verdict on `draft` in round `round`, timed under `key`. */
  function Critique(svc: Services, ctx: Context, round: nat, key: string, draft: ResponseAgentResult, st: State): Stage {
    var st1 := Begin(st, CriticCall(round, CriticParams(ctx, draft)));
    match svc.critic(round, CriticParams(ctx, draft))
    case Failure(m) => Threw(st1, m)
    case Success(verdict) => Reached(Finish(svc, st1, key), ctx, draft, verdict)
  }

  /** `while (!critic.approved && revisionCount < MAX_REVISIONS)` */
  function Loop(svc: Services, ctx: Context, st: State, response: ResponseAgentResult, critic: CriticAgentResult): Stage
    decreases MaxRevisions - st.revisionCount
  {
    if critic.approved || st.revisionCount >= MaxRevisions then
      Reached(st, ctx, response, critic)
    else
      match Revision(svc, ctx, st, response, critic)
      case Threw(st', m) => Threw(st', m)
      case Reached(st', _, revised, verdict) => Loop(svc, ctx, st', revised, verdict)
  }

  /** One pass of the loop body: count the revision, revise the draft in the light of
      the critique, critique the revision, push the new verdict. */
  function Revision(svc: Services, ctx: Context, st: State, response: ResponseAgentResult, critic: CriticAgentResult): (next: Stage)
    ensures next.Reached? ==> next.ctx == ctx && next.st.revisionCount == st.revisionCount + 1
  {
    var k := st.revisionCount + 1;
    var params := ReviseAgentParams(ctx.email.text, ctx.summary, ctx.classification, response, critic);
    var st1 := Begin(st.(revisionCount := k), ReviserCall(k, params));
    match svc.reviser(k, params)
    case Failure(m) => Threw(st1, m)
    case Success(revised) =>
      match Critique(svc, ctx, k, CriticRevisionKey(k), revised, Finish(svc, st1, ReviseKey(k)))
      case Threw(st2, m) => Threw(st2, m)
      case Reached(st2, _, _, verdict) => Reached(st2.(revisions := st2.revisions + [verdict]), ctx, revised, verdict)
  }

  /** `if (!critic.approved)`: report the rejection, or send the reply. */
  function Gate(svc: Services, stage: Stage): Run {
    match stage
    case Threw(st, m) => Run(Failed(ErrorText(m)), st)
    case Reached(st, ctx, response, critic) =>
      if !critic.approved then
        Run(NotSent(critic, st.revisions, st.timings, svc.clock(st.ticks) - svc.clock(0)), st.(ticks := st.ticks + 1))
      else
        var mail := OutgoingMail(ctx.email.from, "Re: " + ctx.email.subject, response.reply);
        var st1 := Begin(st, SendCall(mail));
        match svc.send(mail)
        case Failure(m) => Run(Failed(ErrorText(m)), st1)
        case Success(_) =>
          var st2 := Finish(svc, st1, SendKey);
          Run(Sent(ctx.summary, ctx.classification, response, critic, st2.revisions, st2.timings, svc.clock(st2.ticks) - svc.clock(0)),
              st2.(ticks := st2.ticks + 1))
  }

  // ---------------------------------------------------------------------------
  // The handler, on mutable state

  class Handler {
    var timings: map<string, int>
    var revisions: seq<CriticAgentResult>
    var revisionCount: nat
    var calls: seq<Call>
    var ticks: nat

    function Snapshot(): State
      reads this
    {
      State(timings, revisions, revisionCount, calls, ticks)
    }

    constructor ()
      ensures Snapshot() == State(map[], [], 0, [], 0)
    {
      timings, revisions, revisionCount, calls, ticks := map[], [], 0, [], 0;
    }

    /** `Date.now()` */
    method Now(svc: Services) returns (t: int)
      modifies this
      ensures t == svc.clock(old(ticks))
      ensures Snapshot() == old(Snapshot()).(ticks := old(ticks) + 1)
    {
      t := svc.clock(ticks);
      ticks := ticks + 1;
    }

    /** One request, from a handler that has done nothing yet. */
    method Post(svc: Services) returns (r: PostResult)
      requires Snapshot() == State(map[], [], 0, [], 0)
      modifies this
      ensures Run(r, Snapshot()) == Pipeline(svc)
    {
      var startedAt := Now(svc);
      if svc.fetch.Failure? {
        r := Failed(ErrorText(svc.fetch.error));
        return;
      }
      if svc.fetch.value.None? {
        r := NoUnreadEmail;
        return;
      }
      var email := svc.fetch.value.value;
      var first := RunFirstPass(svc, email);
      if first.Threw? {
        r := Failed(ErrorText(first.message));
        return;
      }
      var last := RunLoop(svc, first.ctx, first.response, first.critic);
      r := RunGate(svc, last, startedAt);
    }

    /** `const t0 = Date.now()` before `call`, which is recorded. */
    method Start(svc: Services, call: Call) returns (t0: int)
      modifies this
      ensures t0 == svc.clock(old(ticks))
      ensures Snapshot() == Begin(old(Snapshot()), call)
    {
      calls := calls + [call];
      t0 := Now(svc);
    }

    /** `timings[key] = Date.now() - t0` once the call begun at `t0` has returned. */
    method Stop(svc: Services, key: string, t0: int)
      requires ticks > 0 && t0 == svc.clock(ticks - 1)
      modifies this
      ensures Snapshot() == Finish(svc, old(Snapshot()), key)
    {
      var t1 := Now(svc);
      timings := timings[key := t1 - t0];
    }

    /** Reader, classifier, responder and critic, each timed into `timings`. */
    method RunFirstPass(svc: Services, email: EmailMessage) returns (stage: Stage)
      modifies this
      ensures stage == FirstPass(svc, email, old(Snapshot())) && Snapshot() == stage.st
      ensures ticks > 0
    {
      var t0 := Start(svc, ReaderCall(email.text));
      var summary := svc.reader(email.text);
      if summary.Failure? {
        return Threw(Snapshot(), summary.error);
      }
      Stop(svc, ReaderKey, t0);
      stage := RunClassification(svc, email, summary.value);
    }

    method RunClassification(svc: Services, email: EmailMessage, summary: string) returns (stage: Stage)
      modifies this
      ensures stage == Classification(svc, email, summary, old(Snapshot())) && Snapshot() == stage.st
      ensures ticks > 0
    {
      var t0 := Start(svc, ClassifierCall(summary));
      var classification := svc.classifier(summary);
      if classification.Failure? {
        return Threw(Snapshot(), classification.error);
      }
      Stop(svc, ClassifierKey, t0);
      stage := RunDrafting(svc, Context(email, summary, classification.value));
    }

    method RunDrafting(svc: Services, ctx: Context) returns (stage: Stage)
      modifies this
      ensures stage == Drafting(svc, ctx, old(Snapshot())) && Snapshot() == stage.st
      ensures ticks > 0
    {
      var t0 := Start(svc, ResponderCall(ctx.email.text, ctx.summary));
      var drafted := svc.responder(ctx.email.text, ctx.summary);
      if drafted.Failure? {
        return Threw(Snapshot(), drafted.error);
      }
      Stop(svc, ResponseKey, t0);
      stage := RunCritique(svc, ctx, 0, CriticKey, drafted.value);
    }

    method RunCritique(svc: Services, ctx: Context, round: nat, key: string, draft: ResponseAgentResult) returns (stage: Stage)
      modifies this
      ensures stage == Critique(svc, ctx, round, key, draft, old(Snapshot())) && Snapshot() == stage.st
      ensures ticks > 0
    {
      var t0 := Start(svc, CriticCall(round, CriticParams(ctx, draft)));
      var judged := svc.critic(round, CriticParams(ctx, draft));
      if judged.Failure? {
        return Threw(Snapshot(), judged.error);
      }
      Stop(svc, key, t0);
      stage := Reached(Snapshot(), ctx, draft, judged.value);
    }

    /** The revision loop, from the first draft and its verdict. */
    method RunLoop(svc: Services, ctx: Context, response: ResponseAgentResult, critic: CriticAgentResult) returns (stage: Stage)
      requires ticks > 0
      modifies this
      ensures stage == Loop(svc, ctx, old(Snapshot()), response, critic) && Snapshot() == stage.st
      ensures ticks > 0
    {
      ghost var exit := Loop(svc, ctx, Snapshot(), response, critic);
      var response, critic := response, critic;
      while !critic.approved && revisionCount < MaxRevisions
        invariant ticks > 0
        invariant Loop(svc, ctx, Snapshot(), response, critic) == exit
        decreases MaxRevisions - revisionCount
      {
        var next := RunRevision(svc, ctx, response, critic);
        if next.Threw? {
          return next;
        }
        response, critic := next.response, next.critic;
      }
      stage := Reached(Snapshot(), ctx, response, critic);
    }

    /** One pass of the loop body. */
    method RunRevision(svc: Services, ctx: Context, response: ResponseAgentResult, critic: CriticAgentResult) returns (next: Stage)
      requires ticks > 0
      modifies this
      ensures next == Revision(svc, ctx, old(Snapshot()), response, critic) && Snapshot() == next.st
      ensures ticks > 0
    {
      ghost var st := Snapshot();
      var k := revisionCount + 1;
      var params := ReviseAgentParams(ctx.email.text, ctx.summary, ctx.classification, response, critic);
      CountRevision();
      var t0 := Start(svc, ReviserCall(k, params));
      var revised := svc.reviser(k, params);
      if revised.Failure? {
        return Threw(Snapshot(), revised.error);
      }
      Stop(svc, ReviseKey(k), t0);
      ghost var st2 := Snapshot();
      assert st2 == Finish(svc, Begin(st.(revisionCount := k), ReviserCall(k, params)), ReviseKey(k));
      next := RunCritique(svc, ctx, k, CriticRevisionKey(k), revised.value);
      if next.Reached? {
        PushRevision(next.critic);
        next := Reached(Snapshot(), ctx, revised.value, next.critic);
      }
    }

    /** `revisionCount += 1` */
    method CountRevision()
      modifies this
      ensures Snapshot() == old(Snapshot()).(revisionCount := old(revisionCount) + 1)
    {
      revisionCount := revisionCount + 1;
    }

    /** `revisions.push(verdict)` */
    method PushRevision(verdict: CriticAgentResult)
      modifies this
      ensures Snapshot() == old(Snapshot()).(revisions := old(revisions) + [verdict])
    {
      revisions := revisions + [verdict];
    }

    /** The approval gate: report the rejection, or send the reply. */
    method RunGate(svc: Services, stage: Stage, startedAt: int) returns (r: PostResult)
      requires startedAt == svc.clock(0) && stage.st == Snapshot() && ticks > 0
      modifies this
      ensures Run(r, Snapshot()) == Gate(svc, stage)
    {
      if stage.Threw? {
        return Failed(ErrorText(stage.message));
      }
      if !stage.critic.approved {
        var finished := Now(svc);
        return NotSent(stage.critic, revisions, timings, finished - startedAt);
      }
      var mail := OutgoingMail(stage.ctx.email.from, "Re: " + stage.ctx.email.subject, stage.response.reply);
      var t0 := Start(svc, SendCall(mail));
      var delivered := svc.send(mail);
      if delivered.Failure? {
        return Failed(ErrorText(delivered.error));
      }
      Stop(svc, SendKey, t0);
      var finished := Now(svc);
      r := Sent(stage.ctx.summary, stage.ctx.classification, stage.response, stage.critic, revisions, timings, finished - startedAt);
    }
  }
}
