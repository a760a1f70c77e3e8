/** What one `POST` promises, stated over the reference definition `Pipeline` that
    `Handler.Post` is proved to follow: how the revision loop ends, when the reply is
    sent and with what, which timings are recorded, and how errors are reported. */
module PipelineProperties {
  import opened Wrappers
  import opened Text
  import opened ResponseAgent
  import opened CriticAgent
  import opened ReviseAgent
  import opened ProcessLatestEmail

  // ---------------------------------------------------------------------------
  // The call trace

  /** Every call in `calls` returned normally. */
  predicate Returned(svc: Services, calls: seq<Call>) {
    forall i :: 0 <= i < |calls| ==> Thrown(svc, calls[i]).None?
  }

  /** Every call in `calls` but the last returned, and the last threw `m`. */
  predicate ThrewAtEnd(svc: Services, calls: seq<Call>, m: string) {
    |calls| > 0 && Returned(svc, calls[..|calls| - 1]) && Thrown(svc, calls[|calls| - 1]) == Some(m)
  }

  /** The mails handed to `sendEmail`, in order. */
  function SentMails(calls: seq<Call>): seq<OutgoingMail> {
    if calls == [] then []
    else SentMails(calls[..|calls| - 1]) + (if calls[|calls| - 1].SendCall? then [calls[|calls| - 1].mail] else [])
  }

  lemma Step(svc: Services, calls: seq<Call>, c: Call)
    ensures Returned(svc, calls) && Thrown(svc, c).None? ==> Returned(svc, calls + [c])
    ensures Returned(svc, calls) && Thrown(svc, c).Some? ==> ThrewAtEnd(svc, calls + [c], Thrown(svc, c).value)
    ensures SentMails(calls + [c]) == SentMails(calls) + (if c.SendCall? then [c.mail] else [])
  {
    assert (calls + [c])[..|calls|] == calls;
  }

  /** A stage that started from `st`, whose calls all returned, ended the way its
      last call did, and sent nothing. */
  predicate Advanced(svc: Services, st: State, s: Stage) {
    && (s.Reached? ==> Returned(svc, s.st.calls))
    && (s.Threw? ==> ThrewAtEnd(svc, s.st.calls, s.message))
    && SentMails(s.st.calls) == SentMails(st.calls)
  }

  /** The verdicts of one request: `first` from the first critique, then one per
      revision; `last` is the latest, and every verdict before it rejected the reply. */
  predicate Verdicts(first: CriticAgentResult, revisions: seq<CriticAgentResult>, last: CriticAgentResult) {
    && (if revisions == [] then first else revisions[|revisions| - 1]) == last
    && (revisions != [] ==> !first.approved)
    && (forall j :: 0 <= j < |revisions| - 1 ==> !revisions[j].approved)
  }

  // ---------------------------------------------------------------------------
  // The stages

  /** A critique calls the critic once; when it returns, its verdict is the critic's
      answer on exactly `draft`, and `key` is timed. */
  lemma CritiqueSpec(svc: Services, ctx: Context, round: nat, key: string, draft: ResponseAgentResult, st: State)
    ensures var s := Critique(svc, ctx, round, key, draft, st);
            && s.st.revisions == st.revisions && s.st.revisionCount == st.revisionCount
            && (s.Reached? ==>
                  && s.ctx == ctx && s.response == draft
                  && svc.critic(round, CriticParams(ctx, draft)) == Success(s.critic)
                  && s.st.calls == st.calls + [CriticCall(round, CriticParams(ctx, draft))]
                  && s.st.timings.Keys == st.timings.Keys + {key})
  {
  }

  lemma CritiqueTrace(svc: Services, ctx: Context, round: nat, key: string, draft: ResponseAgentResult, st: State)
    requires Returned(svc, st.calls)
    ensures Advanced(svc, st, Critique(svc, ctx, round, key, draft, st))
  {
    var c := CriticCall(round, CriticParams(ctx, draft));
    var outcome := svc.critic(round, CriticParams(ctx, draft));
    var st1 := Begin(st, c);
    assert Thrown(svc, c) == ErrorOf(outcome);
    Step(svc, st.calls, c);
    assert SentMails(st1.calls) == SentMails(st.calls);
    if outcome.Failure? {
      assert Critique(svc, ctx, round, key, draft, st) == Threw(st1, outcome.error);
      assert ThrewAtEnd(svc, st1.calls, outcome.error);
    } else {
      assert Critique(svc, ctx, round, key, draft, st) == Reached(Finish(svc, st1, key), ctx, draft, outcome.value);
      assert Returned(svc, st1.calls);
    }
  }

  lemma DraftingTrace(svc: Services, ctx: Context, st: State)
    requires Returned(svc, st.calls)
    ensures Advanced(svc, st, Drafting(svc, ctx, st))
  {
    var st1 := Begin(st, ResponderCall(ctx.email.text, ctx.summary));
    Step(svc, st.calls, ResponderCall(ctx.email.text, ctx.summary));
    if svc.responder(ctx.email.text, ctx.summary).Success? {
      CritiqueTrace(svc, ctx, 0, CriticKey, svc.responder(ctx.email.text, ctx.summary).value, Finish(svc, st1, ResponseKey));
    }
  }

  lemma ClassificationTrace(svc: Services, email: EmailMessage, summary: string, st: State)
    requires Returned(svc, st.calls)
    ensures Advanced(svc, st, Classification(svc, email, summary, st))
  {
    var st1 := Begin(st, ClassifierCall(summary));
    Step(svc, st.calls, ClassifierCall(summary));
    if svc.classifier(summary).Success? {
      DraftingTrace(svc, Context(email, summary, svc.classifier(summary).value), Finish(svc, st1, ClassifierKey));
    }
  }

  /** The first pass ends the way its last call did, with every earlier call returned,
      and sends nothing. */
  lemma FirstPassTrace(svc: Services, email: EmailMessage, st: State)
    requires Returned(svc, st.calls)
    ensures Advanced(svc, st, FirstPass(svc, email, st))
  {
    var st1 := Begin(st, ReaderCall(email.text));
    Step(svc, st.calls, ReaderCall(email.text));
    if svc.reader(email.text).Success? {
      ClassificationTrace(svc, email, svc.reader(email.text).value, Finish(svc, st1, ReaderKey));
    }
  }

  /** From the category on: the responder, then the critic on its draft. */
  lemma DraftingSpec(svc: Services, ctx: Context, st: State)
    ensures var s := Drafting(svc, ctx, st);
            && s.st.revisions == st.revisions && s.st.revisionCount == st.revisionCount
            && (s.Reached? ==>
                  && s.ctx == ctx
                  && svc.responder(ctx.email.text, ctx.summary) == Success(s.response)
                  && svc.critic(0, CriticParams(ctx, s.response)) == Success(s.critic))
  {
    var s := Drafting(svc, ctx, st);
    if s.Reached? {
      var st1 := Begin(st, ResponderCall(ctx.email.text, ctx.summary));
      assert s == Critique(svc, ctx, 0, CriticKey, s.response, Finish(svc, st1, ResponseKey));
    }
  }

  lemma DraftingRecord(svc: Services, ctx: Context, st: State)
    ensures var s := Drafting(svc, ctx, st);
            s.Reached? ==>
              && s.st.calls == st.calls + [ResponderCall(ctx.email.text, ctx.summary), CriticCall(0, CriticParams(ctx, s.response))]
              && s.st.timings.Keys == st.timings.Keys + {ResponseKey, CriticKey}
  {
    var s := Drafting(svc, ctx, st);
    if s.Reached? {
      var st1 := Begin(st, ResponderCall(ctx.email.text, ctx.summary));
      assert s == Critique(svc, ctx, 0, CriticKey, s.response, Finish(svc, st1, ResponseKey));
      assert s.st.calls == st.calls + [ResponderCall(ctx.email.text, ctx.summary)] + [CriticCall(0, CriticParams(ctx, s.response))];
    }
  }

  /** From the summary on: the classifier, whose category is passed on whatever it
      is, then the responder and the critic. */
  lemma ClassificationSpec(svc: Services, email: EmailMessage, summary: string, st: State)
    ensures var s := Classification(svc, email, summary, st);
            && s.st.revisions == st.revisions && s.st.revisionCount == st.revisionCount
            && (s.Reached? ==>
                  && s.ctx.email == email && s.ctx.summary == summary
                  && svc.classifier(summary) == Success(s.ctx.classification)
                  && svc.responder(email.text, summary) == Success(s.response)
                  && svc.critic(0, CriticParams(s.ctx, s.response)) == Success(s.critic))
  {
    var st1 := Begin(st, ClassifierCall(summary));
    if svc.classifier(summary).Success? {
      var ctx := Context(email, summary, svc.classifier(summary).value);
      DraftingSpec(svc, ctx, Finish(svc, st1, ClassifierKey));
    }
  }

  lemma ClassificationRecord(svc: Services, email: EmailMessage, summary: string, st: State)
    ensures var s := Classification(svc, email, summary, st);
            s.Reached? ==>
              && s.st.calls == st.calls + [ClassifierCall(summary), ResponderCall(email.text, summary), CriticCall(0, CriticParams(s.ctx, s.response))]
              && s.st.timings.Keys == st.timings.Keys + {ClassifierKey, ResponseKey, CriticKey}
  {
    var st1 := Begin(st, ClassifierCall(summary));
    if svc.classifier(summary).Success? {
      var ctx := Context(email, summary, svc.classifier(summary).value);
      var st2 := Finish(svc, st1, ClassifierKey);
      DraftingRecord(svc, ctx, st2);
      var s := Drafting(svc, ctx, st2);
      if s.Reached? {
        DraftingSpec(svc, ctx, st2);
        assert st1.calls + [ResponderCall(email.text, summary), CriticCall(0, CriticParams(ctx, s.response))]
            == st.calls + [ClassifierCall(summary), ResponderCall(email.text, summary), CriticCall(0, CriticParams(ctx, s.response))];
      }
    }
  }

  /** Reader, classifier, responder and critic each run once, and the summary, the
      category and the draft are passed on as the agents returned them. */
  lemma FirstPassSpec(svc: Services, email: EmailMessage, st: State)
    ensures var s := FirstPass(svc, email, st);
            && s.st.revisions == st.revisions && s.st.revisionCount == st.revisionCount
            && (s.Reached? ==>
                  && s.ctx.email == email
                  && svc.reader(email.text) == Success(s.ctx.summary)
                  && svc.classifier(s.ctx.summary) == Success(s.ctx.classification)
                  && svc.responder(email.text, s.ctx.summary) == Success(s.response)
                  && svc.critic(0, CriticParams(s.ctx, s.response)) == Success(s.critic))
  {
    var st1 := Begin(st, ReaderCall(email.text));
    if svc.reader(email.text).Success? {
      ClassificationSpec(svc, email, svc.reader(email.text).value, Finish(svc, st1, ReaderKey));
    }
  }

  /** Reader, classifier, responder and critic are called in that order. */
  lemma FirstPassCalls(svc: Services, email: EmailMessage, st: State)
    ensures var s := FirstPass(svc, email, st);
            s.Reached? ==>
              s.st.calls == st.calls + [ReaderCall(email.text), ClassifierCall(s.ctx.summary),
                                        ResponderCall(email.text, s.ctx.summary), CriticCall(0, CriticParams(s.ctx, s.response))]
  {
    var s := FirstPass(svc, email, st);
    if s.Reached? {
      var summary := svc.reader(email.text).value;
      var st2 := Finish(svc, Begin(st, ReaderCall(email.text)), ReaderKey);
      assert s == Classification(svc, email, summary, st2);
      ClassificationRecord(svc, email, summary, st2);
      ClassificationSpec(svc, email, summary, st2);
      var a, b, c, d := ReaderCall(email.text), ClassifierCall(summary), ResponderCall(email.text, summary), CriticCall(0, CriticParams(s.ctx, s.response));
      assert s.st.calls == (st.calls + [a]) + [b, c, d];
      assert (st.calls + [a]) + [b, c, d] == st.calls + [a, b, c, d];
    }
  }

  /** Each of the four stages is timed under its own key. */
  lemma FirstPassTimings(svc: Services, email: EmailMessage, st: State)
    ensures var s := FirstPass(svc, email, st);
            s.Reached? ==> s.st.timings.Keys == st.timings.Keys + StageKeys
  {
    var st1 := Begin(st, ReaderCall(email.text));
    if svc.reader(email.text).Success? {
      ClassificationRecord(svc, email, svc.reader(email.text).value, Finish(svc, st1, ReaderKey));
    }
  }

  /** One revision counts itself, revises, critiques the revision and records the
      verdict and both timings under its own number. */
  lemma RevisionSpec(svc: Services, ctx: Context, st: State, response: ResponseAgentResult, critic: CriticAgentResult)
    ensures var s := Revision(svc, ctx, st, response, critic);
            var k := st.revisionCount + 1;
            s.Reached? ==>
              && s.ctx == ctx && s.st.revisionCount == k
              && s.st.revisions == st.revisions + [s.critic]
              && svc.reviser(k, ReviseAgentParams(ctx.email.text, ctx.summary, ctx.classification, response, critic)) == Success(s.response)
              && svc.critic(k, CriticParams(ctx, s.response)) == Success(s.critic)
              && s.st.timings.Keys == st.timings.Keys + {ReviseKey(k), CriticRevisionKey(k)}
  {
    var k := st.revisionCount + 1;
    var params := ReviseAgentParams(ctx.email.text, ctx.summary, ctx.classification, response, critic);
    var st1 := Begin(st.(revisionCount := k), ReviserCall(k, params));
    if svc.reviser(k, params).Success? {
      CritiqueSpec(svc, ctx, k, CriticRevisionKey(k), svc.reviser(k, params).value, Finish(svc, st1, ReviseKey(k)));
    }
  }

  lemma RevisionTrace(svc: Services, ctx: Context, st: State, response: ResponseAgentResult, critic: CriticAgentResult)
    requires Returned(svc, st.calls)
    ensures Advanced(svc, st, Revision(svc, ctx, st, response, critic))
  {
    var k := st.revisionCount + 1;
    var params := ReviseAgentParams(ctx.email.text, ctx.summary, ctx.classification, response, critic);
    var st1 := Begin(st.(revisionCount := k), ReviserCall(k, params));
    Step(svc, st.calls, ReviserCall(k, params));
    if svc.reviser(k, params).Success? {
      CritiqueTrace(svc, ctx, k, CriticRevisionKey(k), svc.reviser(k, params).value, Finish(svc, st1, ReviseKey(k)));
    }
  }

  /** A rejected verdict followed by a new one: the chain still rejects all but its last. */
  lemma VerdictsExtend(first: CriticAgentResult, revisions: seq<CriticAgentResult>, critic: CriticAgentResult, next: CriticAgentResult)
    requires Verdicts(first, revisions, critic) && !critic.approved
    ensures Verdicts(first, revisions + [next], next)
  {
    var revs := revisions + [next];
    forall j | 0 <= j < |revs| - 1 ensures !revs[j].approved {
      if j == |revisions| - 1 {
        assert revs[j] == critic;
      } else {
        assert revs[j] == revisions[j];
      }
    }
  }

  /** The loop runs at most `MAX_REVISIONS` times and stops exactly when the latest
      verdict approves or the count reaches the bound: every verdict before the last
      rejected the reply, `revisions` holds one verdict per revision, and the last of
      them is the final verdict. An approved verdict on entry means no revision at all. */
  lemma {:induction false} LoopSpec(svc: Services, ctx: Context, st: State, response: ResponseAgentResult,
                                    critic: CriticAgentResult, first: CriticAgentResult)
    requires |st.revisions| == st.revisionCount <= MaxRevisions
    requires Verdicts(first, st.revisions, critic)
    requires st.timings.Keys == StageKeys + RevisionKeys(st.revisionCount)
    requires svc.critic(st.revisionCount, CriticParams(ctx, response)) == Success(critic)
    ensures var s := Loop(svc, ctx, st, response, critic);
            && (s.Reached? ==>
                  && s.ctx == ctx
                  && |s.st.revisions| == s.st.revisionCount <= MaxRevisions
                  && Verdicts(first, s.st.revisions, s.critic)
                  && (s.critic.approved || s.st.revisionCount == MaxRevisions)
                  && s.st.timings.Keys == StageKeys + RevisionKeys(s.st.revisionCount)
                  && svc.critic(s.st.revisionCount, CriticParams(ctx, s.response)) == Success(s.critic))
            && (critic.approved ==> s == Reached(st, ctx, response, critic))
    decreases MaxRevisions - st.revisionCount
  {
    if !critic.approved && st.revisionCount < MaxRevisions {
      RevisionSpec(svc, ctx, st, response, critic);
      var next := Revision(svc, ctx, st, response, critic);
      if next.Reached? {
        VerdictsExtend(first, st.revisions, critic, next.critic);
        LoopSpec(svc, ctx, next.st, next.response, next.critic, first);
      }
    }
  }

  /** The loop's calls all return, except a last one that throws; it sends nothing. */
  lemma {:induction false} LoopTrace(svc: Services, ctx: Context, st: State, response: ResponseAgentResult, critic: CriticAgentResult)
    requires Returned(svc, st.calls)
    ensures Advanced(svc, st, Loop(svc, ctx, st, response, critic))
    decreases MaxRevisions - st.revisionCount
  {
    if !critic.approved && st.revisionCount < MaxRevisions {
      RevisionTrace(svc, ctx, st, response, critic);
      var next := Revision(svc, ctx, st, response, critic);
      if next.Reached? {
        LoopTrace(svc, ctx, next.st, next.response, next.critic);
      }
    }
  }

  /** Where the draft in hand after `n` revisions came from: the responder when there
      was no revision, otherwise the reviser in round `n`, shown some earlier draft and
      verdict. */
  ghost predicate DraftFrom(svc: Services, ctx: Context, n: nat, response: ResponseAgentResult) {
    && (n == 0 ==> svc.responder(ctx.email.text, ctx.summary) == Success(response))
    && (n > 0 ==> exists previous: ResponseAgentResult, verdict: CriticAgentResult ::
                    svc.reviser(n, ReviseAgentParams(ctx.email.text, ctx.summary, ctx.classification, previous, verdict)) == Success(response))
  }

  /** `response = await reviseAgent(...)` is the only assignment in the loop: the draft
      the loop ends with is the reviser's answer in the last round, if there was one. */
  lemma {:induction false} LoopDraft(svc: Services, ctx: Context, st: State, response: ResponseAgentResult, critic: CriticAgentResult)
    requires DraftFrom(svc, ctx, st.revisionCount, response)
    ensures var s := Loop(svc, ctx, st, response, critic);
            s.Reached? ==> s.ctx == ctx && DraftFrom(svc, ctx, s.st.revisionCount, s.response)
    decreases MaxRevisions - st.revisionCount
  {
    if !critic.approved && st.revisionCount < MaxRevisions {
      RevisionSpec(svc, ctx, st, response, critic);
      var next := Revision(svc, ctx, st, response, critic);
      if next.Reached? {
        assert DraftFrom(svc, ctx, next.st.revisionCount, next.response);
        LoopDraft(svc, ctx, next.st, next.response, next.critic);
      }
    }
  }

  /** What a request that reaches the gate carries: the reader's summary, the
      classifier's category of it, and the draft of the last round. */
  lemma ReviewedDraft(svc: Services, email: EmailMessage)
    ensures var s := Reviewed(svc, email);
            s.Reached? ==>
              && svc.reader(email.text) == Success(s.ctx.summary)
              && svc.classifier(s.ctx.summary) == Success(s.ctx.classification)
              && DraftFrom(svc, s.ctx, s.st.revisionCount, s.response)
  {
    FirstPassSpec(svc, email, Started);
    var f := FirstPass(svc, email, Started);
    if f.Reached? {
      assert DraftFrom(svc, f.ctx, f.st.revisionCount, f.response);
      LoopDraft(svc, f.ctx, f.st, f.response, f.critic);
      assert Reviewed(svc, email) == Loop(svc, f.ctx, f.st, f.response, f.critic);
    }
  }

  /** Where the request stands at the gate: reached after the first pass and the loop
      with every call returned and nothing sent, or thrown out by its last call. */
  lemma ReviewedSpec(svc: Services, email: EmailMessage)
    ensures var s := Reviewed(svc, email);
            && Advanced(svc, Started, s)
            && SentMails(s.st.calls) == []
            && (s.Reached? ==>
                  var f := FirstPass(svc, email, Started);
                  && f.Reached? && s.ctx == f.ctx && s.ctx.email == email
                  && |s.st.revisions| == s.st.revisionCount <= MaxRevisions
                  && Verdicts(f.critic, s.st.revisions, s.critic)
                  && (s.critic.approved || s.st.revisionCount == MaxRevisions)
                  && s.st.timings.Keys == StageKeys + RevisionKeys(s.st.revisionCount)
                  && svc.critic(s.st.revisionCount, CriticParams(s.ctx, s.response)) == Success(s.critic)
                  && (f.critic.approved ==> s == f))
  {
    assert SentMails(Started.calls) == [];
    FirstPassTrace(svc, email, Started);
    FirstPassSpec(svc, email, Started);
    FirstPassTimings(svc, email, Started);
    var f := FirstPass(svc, email, Started);
    if f.Reached? {
      assert f.st.timings.Keys == StageKeys + RevisionKeys(0);
      LoopSpec(svc, f.ctx, f.st, f.response, f.critic, f.critic);
      LoopTrace(svc, f.ctx, f.st, f.response, f.critic);
    }
  }

  /** The gate sends exactly when the verdict approves; a rejection returns the
      verdicts and timings as they stand; a thrown stage becomes the error result. */
  lemma GateSpec(svc: Services, s: Stage)
    ensures var run := Gate(svc, s);
            && (s.Reached? ==>
                  var mail := OutgoingMail(s.ctx.email.from, "Re: " + s.ctx.email.subject, s.response.reply);
                  && (run.result.Sent? <==> s.critic.approved && svc.send(mail).Success?)
                  && (run.result.NotSent? <==> !s.critic.approved)
                  && (run.result.NotSent? ==>
                        run.result.critic == s.critic && run.result.revisions == s.st.revisions && run.result.timings == s.st.timings)
                  && (run.result.Sent? ==>
                        && run.result.summary == s.ctx.summary && run.result.classification == s.ctx.classification
                        && run.result.response == s.response && run.result.critic == s.critic
                        && run.result.revisions == s.st.revisions
                        && run.result.timings.Keys == s.st.timings.Keys + {SendKey}))
            && (s.Threw? ==> run == Run(Failed(ErrorText(s.message)), s.st))
  {
  }

  /** The gate calls `sendEmail` once, with the approved reply, exactly when the
      verdict approves; the request fails exactly when some call threw. */
  lemma GateTrace(svc: Services, s: Stage)
    requires Advanced(svc, Started, s)
    ensures var run := Gate(svc, s);
            && SentMails(run.st.calls) ==
                 (if s.Reached? && s.critic.approved
                  then [OutgoingMail(s.ctx.email.from, "Re: " + s.ctx.email.subject, s.response.reply)]
                  else [])
            && (run.result.Failed? ==> exists m :: ThrewAtEnd(svc, run.st.calls, m) && run.result.error == ErrorText(m))
            && (!run.result.Failed? ==> Returned(svc, run.st.calls))
  {
    if s.Reached? && s.critic.approved {
      var mail := OutgoingMail(s.ctx.email.from, "Re: " + s.ctx.email.subject, s.response.reply);
      Step(svc, s.st.calls, SendCall(mail));
    }
  }

  // ---------------------------------------------------------------------------
  // The request

  /** No unread email: the plain message, no agent called, no timing recorded,
      nothing sent. */
  lemma NoUnreadEmailSpec(svc: Services)
    ensures Pipeline(svc).result == NoUnreadEmail <==> svc.fetch == Success(None)
    ensures svc.fetch == Success(None) ==>
              && Pipeline(svc).st.calls == [] && Pipeline(svc).st.timings == map[]
              && Message(Pipeline(svc).result) == Some("No unread emails found") && Status(Pipeline(svc).result) == 200
  {
    if svc.fetch.Success? && svc.fetch.value.Some? {
      var s := Reviewed(svc, svc.fetch.value.value);
      ReviewedSpec(svc, svc.fetch.value.value);
      GateSpec(svc, s);
      GateTrace(svc, s);
    }
  }

  /** `sendEmail` is called at most once, and exactly when the request reaches the
      gate with an approved verdict; it is given the sender, "Re: " and the subject,
      and the reply the critic approved. */
  lemma SendSpec(svc: Services)
    ensures var calls := Pipeline(svc).st.calls;
            && |SentMails(calls)| <= 1
            && (|SentMails(calls)| == 1 <==>
                  svc.fetch.Success? && svc.fetch.value.Some? &&
                  Reviewed(svc, svc.fetch.value.value).Reached? && Reviewed(svc, svc.fetch.value.value).critic.approved)
            && (|SentMails(calls)| == 1 ==>
                  var email := svc.fetch.value.value;
                  SentMails(calls)[0] == OutgoingMail(email.from, "Re: " + email.subject, Reviewed(svc, email).response.reply))
    ensures Pipeline(svc).result.Sent? <==> |SentMails(Pipeline(svc).st.calls)| == 1 && svc.send(SentMails(Pipeline(svc).st.calls)[0]).Success?
  {
    if svc.fetch.Success? && svc.fetch.value.Some? {
      var s := Reviewed(svc, svc.fetch.value.value);
      ReviewedSpec(svc, svc.fetch.value.value);
      GateSpec(svc, s);
      GateTrace(svc, s);
    }
  }

  /** The reply sent is one the critic approved: the critic's answer, in the last
      round, on exactly the response that goes out. Every earlier verdict rejected. */
  lemma SentSpec(svc: Services)
    requires Pipeline(svc).result.Sent?
    ensures var r := Pipeline(svc).result;
            var email := svc.fetch.value.value;
            && svc.fetch == Success(Some(email))
            && r.critic.approved
            && |r.revisions| <= MaxRevisions
            && svc.critic(|r.revisions|, CriticAgentParams(email.text, r.summary, r.classification, r.response)) == Success(r.critic)
            && Verdicts(FirstPass(svc, email, Started).critic, r.revisions, r.critic)
            && SentMails(Pipeline(svc).st.calls) == [OutgoingMail(email.from, "Re: " + email.subject, r.response.reply)]
            && r.timings.Keys == StageKeys + RevisionKeys(|r.revisions|) + {SendKey}
            && Message(r) == Some("Reply sent successfully")
  {
    var s := Reviewed(svc, svc.fetch.value.value);
    ReviewedSpec(svc, svc.fetch.value.value);
    GateSpec(svc, s);
    GateTrace(svc, s);
  }

  /** The sent response carries the reader's summary and the classifier's category
      of it, and its draft is the responder's when nothing was revised and the
      reviser's answer in the last round otherwise. */
  lemma SentProvenance(svc: Services)
    requires Pipeline(svc).result.Sent?
    ensures var r := Pipeline(svc).result;
            var email := svc.fetch.value.value;
            && svc.fetch == Success(Some(email))
            && svc.reader(email.text) == Success(r.summary)
            && svc.classifier(r.summary) == Success(r.classification)
            && DraftFrom(svc, Context(email, r.summary, r.classification), |r.revisions|, r.response)
  {
    var email := svc.fetch.value.value;
    var s := Reviewed(svc, email);
    ReviewedSpec(svc, email);
    ReviewedDraft(svc, email);
    GateSpec(svc, s);
  }

  /** The critic never approved: the "not sent" message with the last verdict, all
      `MAX_REVISIONS` revisions (each one rejected), the timings and the duration,
      and nothing sent. */
  lemma NotSentSpec(svc: Services)
    requires Pipeline(svc).result.NotSent?
    ensures var r := Pipeline(svc).result;
            var email := svc.fetch.value.value;
            && svc.fetch == Success(Some(email))
            && !r.critic.approved
            && |r.revisions| == MaxRevisions
            && Verdicts(FirstPass(svc, email, Started).critic, r.revisions, r.critic)
            && (forall j :: 0 <= j < |r.revisions| ==> !r.revisions[j].approved)
            && SentMails(Pipeline(svc).st.calls) == []
            && r.timings.Keys == StageKeys + RevisionKeys(MaxRevisions)
            && Message(r) == Some("Critic did not approve the reply after revisions. Email not sent.")
  {
    var s := Reviewed(svc, svc.fetch.value.value);
    ReviewedSpec(svc, svc.fetch.value.value);
    GateSpec(svc, s);
    GateTrace(svc, s);
  }

  /** The first verdict approves: no revision, and the responder's own draft is what
      is sent (or the send throws). */
  lemma FirstApprovedSpec(svc: Services, email: EmailMessage)
    requires svc.fetch == Success(Some(email))
    requires FirstPass(svc, email, Started).Reached? && FirstPass(svc, email, Started).critic.approved
    ensures var f := FirstPass(svc, email, Started);
            var run := Pipeline(svc);
            var mail := OutgoingMail(email.from, "Re: " + email.subject, f.response.reply);
            && run.st.revisionCount == 0
            && SentMails(run.st.calls) == [mail]
            && (run.result.Sent? || run.result == Failed(ErrorText(svc.send(mail).error)))
            && (run.result.Sent? ==> run.result.response == f.response && run.result.revisions == [])
  {
    var s := Reviewed(svc, email);
    ReviewedSpec(svc, email);
    FirstPassSpec(svc, email, Started);
    GateSpec(svc, s);
    GateTrace(svc, s);
  }

  /** A request fails exactly when the fetch or one of its calls throws: the error is
      that message, or "Unexpected error" when it is empty, with status 500 and no
      other field. A request that does not fail had every call return. */
  lemma FailureSpec(svc: Services)
    ensures var run := Pipeline(svc);
            && (run.result.Failed? ==>
                  && Status(run.result) == 500 && Message(run.result).None? && run.result.error != ""
                  && ((svc.fetch.Failure? && run.result.error == ErrorText(svc.fetch.error))
                      || (exists m :: ThrewAtEnd(svc, run.st.calls, m) && run.result.error == ErrorText(m))))
            && (!run.result.Failed? ==> svc.fetch.Success? && Returned(svc, run.st.calls) && Status(run.result) == 200)
  {
    if svc.fetch.Success? && svc.fetch.value.Some? {
      var s := Reviewed(svc, svc.fetch.value.value);
      ReviewedSpec(svc, svc.fetch.value.value);
      GateSpec(svc, s);
      GateTrace(svc, s);
    }
  }

  // ---------------------------------------------------------------------------
  // Timing keys

  lemma ReviseKeyInjective(j: nat, k: nat)
    ensures ReviseKey(j) == ReviseKey(k) <==> j == k
    ensures CriticRevisionKey(j) == CriticRevisionKey(k) <==> j == k
    ensures ReviseKey(j) != CriticRevisionKey(k)
  {
    var a, b := NatToString(j), NatToString(k);
    if ReviseKey(j) == ReviseKey(k) {
      assert a == ReviseKey(j)[6..|ReviseKey(j)| - 2];
      assert b == ReviseKey(k)[6..|ReviseKey(k)| - 2];
      NatToStringInjective(j, k);
    }
    if CriticRevisionKey(j) == CriticRevisionKey(k) {
      assert a == CriticRevisionKey(j)[14..|CriticRevisionKey(j)| - 2];
      assert b == CriticRevisionKey(k)[14..|CriticRevisionKey(k)| - 2];
      NatToStringInjective(j, k);
    }
    assert ReviseKey(j)[0] != CriticRevisionKey(k)[0];
  }

  /** `revise{k}Ms` and `criticRevision{k}Ms` are among the keys of revisions 1..n
      exactly when k is one of 1..n. */
  lemma {:induction false} RevisionKeysSpec(n: nat, k: nat)
    ensures ReviseKey(k) in RevisionKeys(n) <==> 1 <= k <= n
    ensures CriticRevisionKey(k) in RevisionKeys(n) <==> 1 <= k <= n
  {
    if n > 0 {
      RevisionKeysSpec(n - 1, k);
      ReviseKeyInjective(k, n);
      ReviseKeyInjective(n, k);
    }
  }

  /** The keys of revisions 1..n are those two keys of each revision and nothing else. */
  lemma {:induction false} RevisionKeysOnly(n: nat)
    ensures forall key :: key in RevisionKeys(n) ==> exists j :: 1 <= j <= n && (key == ReviseKey(j) || key == CriticRevisionKey(j))
  {
    if n > 0 {
      RevisionKeysOnly(n - 1);
    }
  }

  /** No revision key is a stage key or `sendMs`: `revise{k}Ms` has a `v` where none
      of them has, and `criticRevision{k}Ms` is longer than any of them. */
  lemma RevisionKeyIsNotStageKey(j: nat)
    ensures ReviseKey(j) !in StageKeys + {SendKey}
    ensures CriticRevisionKey(j) !in StageKeys + {SendKey}
  {
    assert ReviseKey(j)[2] == 'v';
    assert ReaderKey[2] != 'v' && ClassifierKey[2] != 'v' && ResponseKey[2] != 'v' && CriticKey[2] != 'v' && SendKey[2] != 'v';
    assert |CriticRevisionKey(j)| > 12;
  }

  /** The four stage keys are distinct, no revision key clashes with them, and
      `sendMs` is none of them: so it is recorded only when the reply is sent. */
  lemma KeysDisjoint(n: nat)
    ensures |StageKeys| == 4
    ensures StageKeys !! RevisionKeys(n)
    ensures SendKey !in StageKeys + RevisionKeys(n)
  {
    StageKeysDistinct();
    RevisionKeysOnly(n);
    forall key | key in RevisionKeys(n) ensures key !in StageKeys + {SendKey} {
      var j :| 1 <= j <= n && (key == ReviseKey(j) || key == CriticRevisionKey(j));
      RevisionKeyIsNotStageKey(j);
    }
  }

  lemma StageKeysDistinct()
    ensures |StageKeys| == 4 && SendKey !in StageKeys
  {
    assert ReaderKey[0] != ClassifierKey[0] && ReaderKey[2] != ResponseKey[2];
    assert ClassifierKey[0] != ResponseKey[0] && ReaderKey[0] != CriticKey[0];
    assert ClassifierKey[1] != CriticKey[1] && ResponseKey[0] != CriticKey[0];
    assert SendKey != ReaderKey && SendKey != ClassifierKey && SendKey != ResponseKey && SendKey != CriticKey by {
      assert SendKey[0] == 's';
    }
  }
}
