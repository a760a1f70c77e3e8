/** `reviseAgent`: the rewritten reply is the model's text, but the sender's name
    and the order number are re-derived from the original email text alone, by two
    regular expressions per field tried in order (first match wins, none gives null). */
module ReviseAgent {
  import opened Wrappers
  import opened Text
  import opened Completion
  import opened ResponseAgent
  import opened CriticAgent
  import opened RevisePatterns

  /** `ReviseAgentParams`: everything the reviser is shown. */
  datatype ReviseAgentParams = ReviseAgentParams(
    emailText: string,
    summary: string,
    classification: string,
    previousResponse: ResponseAgentResult,
    critic: CriticAgentResult)

  /** `usernameMatch ? usernameMatch[1] : null`: the greeting regex, else the name label. */
  function Username(s: string): Option<string> {
    if Greeting(s).Some? then Greeting(s) else NameLabel(s)
  }

  /** `orderMatch ? orderMatch[1] : null`: the labelled regex, else the fallback. */
  function OrderNumber(s: string): Option<string> {
    if OrderLabel(s).Some? then OrderLabel(s) else Fallback(s)
  }

  /** The revised draft for the completion `content`. */
  function ReviseDraft(p: ReviseAgentParams, content: Content): (d: ResponseAgentResult)
    ensures d.reply == "" <==> IsBlank(content)
    ensures content.Some? ==> d.reply == content.value
  {
    ResponseAgentResult(OrEmpty(content), Username(p.emailText), OrderNumber(p.emailText))
  }

  /** A name or order number in the revised draft is never made up: it has the
      shape its pattern captures and is taken from the email text. */
  lemma ReviseDraftSpec(p: ReviseAgentParams, content: Content)
    ensures var d := ReviseDraft(p, content);
            d.username.Some? ==> IsName(d.username.value) && exists k: nat :: OccursAt(p.emailText, k, d.username.value)
    ensures var d := ReviseDraft(p, content);
            d.orderNumber.Some? ==> IsOrderCode(d.orderNumber.value) && exists k: nat :: OccursAt(p.emailText, k, d.orderNumber.value)
  {
    var d := ReviseDraft(p, content);
    if d.username.Some? {
      UsernameShape(p.emailText);
      var i: nat, k: nat :| NameCapturedAt(p.emailText, i, k, d.username.value);
    }
    if d.orderNumber.Some? {
      if OrderLabel(p.emailText).Some? {
        OrderLabelShape(p.emailText);
        var i: nat, alt: nat, q: nat, sep: bool, c: nat :| LabelledCodeAt(p.emailText, i, alt, q, sep, c, d.orderNumber.value);
      } else {
        FallbackShape(p.emailText);
        var i: nat :| FallbackCodeAt(p.emailText, i, d.orderNumber.value);
      }
    }
  }

  /** `u` occurs in `s` starting at `k`. */
  predicate OccursAt(s: string, k: nat, u: string) {
    k + |u| <= |s| && s[k..k + |u|] == u
  }

  /** What `[A-Z][a-zA-Z]+` under /i captures: two or more ASCII letters. */
  predicate IsName(u: string) {
    |u| >= 2 && forall t :: 0 <= t < |u| ==> IsAsciiLetter(u[t])
  }

  /** What `[A-Z0-9\-]+` under /i captures: one or more letters, digits or hyphens. */
  predicate IsOrderCode(v: string) {
    |v| >= 1 && forall t :: 0 <= t < |v| ==> IsOrderChar(v[t])
  }

  /** The greeting wins over the name label; null exactly when neither regex matches. */
  lemma {:induction false} UsernameSpec(s: string, u: string)
    ensures Username(s).None? <==> forall i: nat, k: nat, e: nat :: !GreetingAt(s, i, k, e) && !NameLabelAt(s, i, k, e)
    ensures Username(s) == Some(u) <==>
              || (exists i: nat, k: nat, e: nat :: LeftmostGreeting(s, i, k, e) && u == s[k..e])
              || ((forall i: nat, k: nat, e: nat :: !GreetingAt(s, i, k, e)) &&
                  exists i: nat, k: nat, e: nat :: LeftmostNameLabel(s, i, k, e) && u == s[k..e])
  {
    GreetingSpec(s, u);
    NameLabelSpec(s, u);
  }

  /** `u` is group 1 of a greeting or name-label match starting at `i`, and sits at `k`. */
  predicate NameCapturedAt(s: string, i: nat, k: nat, u: string) {
    (GreetingAt(s, i, k, k + |u|) || NameLabelAt(s, i, k, k + |u|)) && OccursAt(s, k, u)
  }

  lemma CapturedNameIsName(s: string, i: nat, k: nat, u: string)
    requires NameCapturedAt(s, i, k, u)
    ensures IsName(u)
  {
    forall t | 0 <= t < |u| ensures IsAsciiLetter(u[t]) {
      assert u[t] == s[k + t];
    }
  }

  /** The greeting regex's group 1 is captured from the email text. */
  lemma GreetingFound(s: string)
    requires Greeting(s).Some?
    ensures exists i: nat, k: nat :: NameCapturedAt(s, i, k, Greeting(s).value)
  {
    var m := FirstMatchFrom(|s|, 0, GreetingAttempt(s));
    var i, k, e := m.value.index, m.value.group.start, m.value.group.end;
    assert MatchGreetingAt(s, i) == Some(Span(k, e));
    assert NameCapturedAt(s, i, k, Greeting(s).value);
  }

  /** The name-label regex's group 1 is captured from the email text. */
  lemma NameLabelFound(s: string)
    requires NameLabel(s).Some?
    ensures exists i: nat, k: nat :: NameCapturedAt(s, i, k, NameLabel(s).value)
  {
    var m := FirstMatchFrom(|s|, 0, NameLabelAttempt(s));
    var i, k, e := m.value.index, m.value.group.start, m.value.group.end;
    assert MatchNameLabelAt(s, i) == Some(Span(k, e));
    assert NameCapturedAt(s, i, k, NameLabel(s).value);
  }

  /** A name is captured right after a greeting word and whitespace, or after
      `name:` / `name-`: it is two or more letters taken from the email text. */
  lemma UsernameShape(s: string)
    requires Username(s).Some?
    ensures IsName(Username(s).value)
    ensures exists i: nat, k: nat :: NameCapturedAt(s, i, k, Username(s).value)
  {
    var u := Username(s).value;
    if Greeting(s).Some? {
      GreetingFound(s);
    } else {
      NameLabelFound(s);
    }
    var i: nat, k: nat :| NameCapturedAt(s, i, k, u);
    CapturedNameIsName(s, i, k, u);
  }

  /** The labelled regex wins over the fallback; null exactly when neither matches. */
  lemma {:induction false} OrderNumberSpec(s: string, v: string)
    ensures OrderNumber(s).None? <==>
              (forall i: nat, a: nat :: !AltMatches(s, i, a)) && (forall i: nat, e: nat :: !FallbackAt(s, i, e))
    ensures OrderNumber(s) == Some(v) <==>
              || (exists i: nat, c: nat, e: nat :: LeftmostOrderLabel(s, i, c, e) && v == s[c..e])
              || ((forall i: nat, a: nat :: !AltMatches(s, i, a)) &&
                  exists i: nat, e: nat :: LeftmostFallback(s, i, e) && v == s[i..e])
  {
    OrderLabelSpec(s, v);
    FallbackSpec(s, v);
  }

  /** `v` is group 1 of an order-label match starting at `i` (decomposed by `alt`,
      `q` and `sep`), and sits at `c`. */
  ghost predicate LabelledCodeAt(s: string, i: nat, alt: nat, q: nat, sep: bool, c: nat, v: string) {
    OrderLabelAt(s, i, alt, q, sep, c, c + |v|) && OccursAt(s, c, v)
  }

  /** `v` is group 1 of a fallback match starting at `i`. */
  predicate FallbackCodeAt(s: string, i: nat, v: string) {
    FallbackAt(s, i, i + |v|) && OccursAt(s, i, v)
  }

  /** A non-empty run of characters that are all letters, digits or hyphens is an order code. */
  lemma RunIsOrderCode(s: string, c: nat, v: string, inClass: char -> bool)
    requires OccursAt(s, c, v) && |v| >= 1 && All(s, c, c + |v|, inClass)
    requires forall ch :: inClass(ch) ==> IsOrderChar(ch)
    ensures IsOrderCode(v)
  {
    forall t | 0 <= t < |v| ensures IsOrderChar(v[t]) {
      assert v[t] == s[c + t];
    }
  }

  /** What the order-label matcher reports at `i` is group 1 of some decomposition. */
  lemma OrderLabelDecomposed(s: string, i: nat, c: nat, e: nat)
    requires MatchOrderLabelAt(s, i) == Some(Span(c, e))
    ensures exists alt: nat, q: nat, sep: bool :: OrderLabelAt(s, i, alt, q, sep, c, e)
  {
    MatchOrderLabelAtIff(s, i, c, e);
    var a: nat :| PreferredOrderLabelAt(s, i, a, c, e);
    PreferredMatches(s, i, a, c, e);
  }

  /** The labelled regex's group 1 is captured from the email text. */
  lemma OrderLabelFound(s: string)
    requires OrderLabel(s).Some?
    ensures exists i: nat, alt: nat, q: nat, sep: bool, c: nat :: LabelledCodeAt(s, i, alt, q, sep, c, OrderLabel(s).value)
  {
    var m := FirstMatchFrom(|s|, 0, OrderLabelAttempt(s));
    var i, c, e := m.value.index, m.value.group.start, m.value.group.end;
    assert MatchOrderLabelAt(s, i) == Some(Span(c, e));
    OrderLabelDecomposed(s, i, c, e);
    var a: nat, q: nat, sep: bool :| OrderLabelAt(s, i, a, q, sep, c, e);
    assert LabelledCodeAt(s, i, a, q, sep, c, OrderLabel(s).value);
  }

  /** A labelled order number follows "order", the optional suffix and separators,
      and is a run of letters, digits and hyphens taken from the email. */
  lemma OrderLabelShape(s: string)
    requires OrderLabel(s).Some?
    ensures IsOrderCode(OrderLabel(s).value)
    ensures exists i: nat, alt: nat, q: nat, sep: bool, c: nat :: LabelledCodeAt(s, i, alt, q, sep, c, OrderLabel(s).value)
  {
    var v := OrderLabel(s).value;
    OrderLabelFound(s);
    var i: nat, alt: nat, q: nat, sep: bool, c: nat :| LabelledCodeAt(s, i, alt, q, sep, c, v);
    RunIsOrderCode(s, c, v, IsOrderChar);
  }

  /** A fallback order number is a `\b`-delimited run of six or more capitals and
      digits taken from the email. */
  lemma FallbackShape(s: string)
    requires Fallback(s).Some?
    ensures IsOrderCode(Fallback(s).value) && |Fallback(s).value| >= 6
    ensures exists i: nat :: FallbackCodeAt(s, i, Fallback(s).value)
  {
    var v := Fallback(s).value;
    var m := FirstMatchFrom(|s|, 0, FallbackAttempt(s));
    var i, e := m.value.index, m.value.group.end;
    assert MatchFallbackAt(s, i) == Some(Span(i, e));
    assert FallbackCodeAt(s, i, v);
    RunIsOrderCode(s, i, v, IsUpperOrDigit);
  }

  /** The name and the order number never depend on the model's output, the previous
      draft or the critique: two calls on the same email text agree on them. */
  lemma ExtractionIgnoresModel(p: ReviseAgentParams, p': ReviseAgentParams, content: Content, content': Content)
    requires p.emailText == p'.emailText
    ensures ReviseDraft(p, content).username == ReviseDraft(p', content').username
    ensures ReviseDraft(p, content).orderNumber == ReviseDraft(p', content').orderNumber
  {
  }
}
