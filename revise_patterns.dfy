/** The four regular expressions `reviseAgent` runs over the original email text
    to re-derive the sender's name and the order number, written as matchers
    with JavaScript's leftmost-first, backtracking semantics:

      greeting     /(?:hi|hello|dear)\s+([A-Z][a-zA-Z]+)/i
      name label   /name[:\-]\s*([A-Z][a-zA-Z]+)/i
      order label  /order(?:\s*number|#| no\.?)?\s*[:\-]?\s*([A-Z0-9\-]+)/i
      fallback     /\b([A-Z0-9]{6,})\b/

    Each has a declarative description of "a match starting at `i` whose first
    group is `s[k..e]`" and a matcher that tries the starting positions from left
    to right; lemmas show the matcher finds exactly the leftmost match.

    Under the `/i` flag of a non-Unicode regular expression JavaScript folds case
    with `toUpperCase` but never lets a non-ASCII character match an ASCII one, so
    folding the ASCII letters only is exact. `\s` is the full JavaScript
    whitespace set (`Text.IsSpace`). */
module RevisePatterns {
  import opened Wrappers
  import opened Text

  /** The span `s[start..end]` of capture group 1. */
  datatype Span = Span(start: nat, end: nat)

  /** What `String.prototype.match` reports for a regex without the g flag:
      where the match starts, and the span of group 1. */
  datatype RegexMatch = RegexMatch(index: nat, group: Span)

  // ---------------------------------------------------------------------------
  // Runs of characters

  /** Every character of `s[p..e]` is in the class. */
  predicate All(s: string, p: nat, e: nat, inClass: char -> bool) {
    p <= e <= |s| && forall t :: p <= t < e ==> inClass(s[t])
  }

  /** A greedy repetition ending at `e` cannot be extended. */
  predicate Maximal(s: string, e: nat, inClass: char -> bool) {
    e == |s| || (e < |s| && !inClass(s[e]))
  }

  /** Where the longest run of class characters starting at `p` ends. */
  function RunEnd(s: string, p: nat, inClass: char -> bool): (e: nat)
    requires p <= |s|
    ensures All(s, p, e, inClass) && Maximal(s, e, inClass)
    decreases |s| - p
  {
    if p < |s| && inClass(s[p]) then RunEnd(s, p + 1, inClass) else p
  }

  /** A run that cannot be extended is the longest run. */
  lemma RunEndUnique(s: string, p: nat, e: nat, inClass: char -> bool)
    requires All(s, p, e, inClass) && Maximal(s, e, inClass)
    ensures e == RunEnd(s, p, inClass)
  {
  }

  /** The lower-case keyword `kw` occurs at `i`, letters compared as `/i` compares them. */
  predicate WordAt(s: string, i: nat, kw: string) {
    i + |kw| <= |s| && forall t :: 0 <= t < |kw| ==> Lower(s[i + t]) == kw[t]
  }

  /** Two keywords that differ at offset `t` cannot both occur at `i`. */
  lemma WordsExclusive(s: string, i: nat, a: string, b: string, t: nat)
    requires t < |a| && t < |b| && a[t] != b[t]
    ensures !(WordAt(s, i, a) && WordAt(s, i, b))
  {
    if WordAt(s, i, a) {
      assert Lower(s[i + t]) == a[t];
    }
  }

  /** A keyword starting with a letter does not start with whitespace. */
  lemma WordStartsWithLetter(s: string, i: nat, kw: string)
    requires WordAt(s, i, kw) && |kw| > 0 && 'a' <= kw[0] <= 'z'
    ensures !IsSpace(s[i])
  {
    assert Lower(s[i + 0]) == kw[0];
    LowerKeepsSpace(s[i]);
  }

  // ---------------------------------------------------------------------------
  // Leftmost-first search

  /** The first starting position from `i` to `n` (the length of the text) at which
      `attempt` succeeds: `String.prototype.match` tries them in this order. */
  function FirstMatchFrom(n: nat, i: nat, attempt: nat -> Option<Span>): (r: Option<RegexMatch>)
    ensures r.Some? ==> i <= r.value.index <= n && attempt(r.value.index) == Some(r.value.group)
    ensures r.Some? ==> forall j :: i <= j < r.value.index ==> attempt(j).None?
    ensures r.None? ==> forall j :: i <= j <= n ==> attempt(j).None?
    decreases n - i
  {
    if i > n then None
    else if attempt(i).Some? then Some(RegexMatch(i, attempt(i).value))
    else FirstMatchFrom(n, i + 1, attempt)
  }

  /** Positions at which `attempt` fails are passed over. */
  lemma {:induction false} FirstMatchSkips(n: nat, i: nat, a: nat, attempt: nat -> Option<Span>)
    requires i <= a && forall j :: i <= j < a ==> attempt(j).None?
    ensures FirstMatchFrom(n, i, attempt) == FirstMatchFrom(n, a, attempt)
    decreases a - i
  {
    if i < a {
      FirstMatchSkips(n, i + 1, a, attempt);
    }
  }

  /** The search from 0 finds position `i` exactly when `attempt` succeeds there
      and at no earlier position. */
  lemma FirstMatchIff(n: nat, attempt: nat -> Option<Span>, i: nat, group: Span)
    ensures FirstMatchFrom(n, 0, attempt) == Some(RegexMatch(i, group)) <==>
            i <= n && attempt(i) == Some(group) && forall j :: 0 <= j < i ==> attempt(j).None?
  {
  }

  /** The text of group 1 of a match found from 0 (None when there is no match). */
  function Group(s: string, m: Option<RegexMatch>): Option<string>
    requires m.Some? ==> m.value.group.start <= m.value.group.end <= |s|
  {
    match m
    case None => None
    case Some(found) => Some(s[found.group.start..found.group.end])
  }

  // ---------------------------------------------------------------------------
  // A name: `\s+([A-Z][a-zA-Z]+)` or `\s*([A-Z][a-zA-Z]+)` under /i

  /** From `p`: at least `minSpaces` whitespace characters up to `k`, then the group
      `s[k..e]`, two or more ASCII letters taken greedily. */
  predicate NameAfter(s: string, p: nat, minSpaces: nat, k: nat, e: nat) {
    && p + minSpaces <= k && All(s, p, k, IsSpace)
    && k + 2 <= e && All(s, k, e, IsAsciiLetter) && Maximal(s, e, IsAsciiLetter)
  }

  function MatchNameAfter(s: string, p: nat, minSpaces: nat): (r: Option<Span>)
    requires p <= |s|
    ensures r.Some? ==> NameAfter(s, p, minSpaces, r.value.start, r.value.end)
  {
    var k := RunEnd(s, p, IsSpace);
    var e := RunEnd(s, k, IsAsciiLetter);
    if p + minSpaces <= k && k + 2 <= e then Some(Span(k, e)) else None
  }

  lemma MatchNameAfterIff(s: string, p: nat, minSpaces: nat, k: nat, e: nat)
    requires p <= |s|
    ensures MatchNameAfter(s, p, minSpaces) == Some(Span(k, e)) <==> NameAfter(s, p, minSpaces, k, e)
  {
    if NameAfter(s, p, minSpaces, k, e) {
      assert !IsSpace(s[k]);
      RunEndUnique(s, p, k, IsSpace);
      RunEndUnique(s, k, e, IsAsciiLetter);
    }
  }

  // ---------------------------------------------------------------------------
  // Greeting: /(?:hi|hello|dear)\s+([A-Z][a-zA-Z]+)/i

  /** A greeting match starts at `i` with group 1 `s[k..e]`. */
  predicate GreetingAt(s: string, i: nat, k: nat, e: nat) {
    || (WordAt(s, i, "hi") && NameAfter(s, i + 2, 1, k, e))
    || (WordAt(s, i, "hello") && NameAfter(s, i + 5, 1, k, e))
    || (WordAt(s, i, "dear") && NameAfter(s, i + 4, 1, k, e))
  }

  /** The greeting regex tried at position `i`, alternatives in their written order. */
  function MatchGreetingAt(s: string, i: nat): (r: Option<Span>)
    ensures r.Some? ==> GreetingAt(s, i, r.value.start, r.value.end)
  {
    if WordAt(s, i, "hi") && MatchNameAfter(s, i + 2, 1).Some? then MatchNameAfter(s, i + 2, 1)
    else if WordAt(s, i, "hello") && MatchNameAfter(s, i + 5, 1).Some? then MatchNameAfter(s, i + 5, 1)
    else if WordAt(s, i, "dear") && MatchNameAfter(s, i + 4, 1).Some? then MatchNameAfter(s, i + 4, 1)
    else None
  }

  /** At each position there is at most one greeting match, and the matcher finds it. */
  lemma MatchGreetingAtIff(s: string, i: nat, k: nat, e: nat)
    ensures MatchGreetingAt(s, i) == Some(Span(k, e)) <==> GreetingAt(s, i, k, e)
  {
    WordsExclusive(s, i, "hi", "hello", 1);
    WordsExclusive(s, i, "hi", "dear", 0);
    WordsExclusive(s, i, "hello", "dear", 0);
    if WordAt(s, i, "hi") {
      MatchNameAfterIff(s, i + 2, 1, k, e);
    } else if WordAt(s, i, "hello") {
      MatchNameAfterIff(s, i + 5, 1, k, e);
    } else if WordAt(s, i, "dear") {
      MatchNameAfterIff(s, i + 4, 1, k, e);
    }
  }

  /** The greeting regex tried at each starting position. */
  function GreetingAttempt(s: string): nat -> Option<Span> {
    (j: nat) => MatchGreetingAt(s, j)
  }

  /** `emailText.match(greeting)`, group 1. */
  function Greeting(s: string): Option<string> {
    Group(s, FirstMatchFrom(|s|, 0, GreetingAttempt(s)))
  }

  /** The greeting match that `match` reports: the one starting furthest left. */
  ghost predicate LeftmostGreeting(s: string, i: nat, k: nat, e: nat) {
    GreetingAt(s, i, k, e) && forall j: nat, k': nat, e': nat :: j < i ==> !GreetingAt(s, j, k', e')
  }

  lemma {:induction false} GreetingSpec(s: string, u: string)
    ensures Greeting(s).None? <==> forall i: nat, k: nat, e: nat :: !GreetingAt(s, i, k, e)
    ensures Greeting(s) == Some(u) <==> exists i: nat, k: nat, e: nat :: LeftmostGreeting(s, i, k, e) && u == s[k..e]
  {
    var attempt := GreetingAttempt(s);
    var m := FirstMatchFrom(|s|, 0, attempt);
    forall i: nat, k: nat, e: nat | GreetingAt(s, i, k, e)
      ensures m.Some? && m.value.index <= i
    {
      MatchGreetingAtIff(s, i, k, e);
      assert attempt(i).Some?;
    }
    if m.Some? {
      var i, k, e := m.value.index, m.value.group.start, m.value.group.end;
      MatchGreetingAtIff(s, i, k, e);
      forall j: nat, k': nat, e': nat | j < i ensures !GreetingAt(s, j, k', e') {
        MatchGreetingAtIff(s, j, k', e');
        assert attempt(j).None?;
      }
      assert LeftmostGreeting(s, i, k, e);
      if exists i': nat, k': nat, e': nat :: LeftmostGreeting(s, i', k', e') && u == s[k'..e'] {
        var i': nat, k': nat, e': nat :| LeftmostGreeting(s, i', k', e') && u == s[k'..e'];
        MatchGreetingAtIff(s, i', k', e');
        assert i' == i;
      }
    }
  }

  // ---------------------------------------------------------------------------
  // Name label: /name[:\-]\s*([A-Z][a-zA-Z]+)/i

  /** `[:\-]` */
  predicate IsSeparator(c: char) { c == ':' || c == '-' }

  /** A name-label match starts at `i` with group 1 `s[k..e]`. */
  predicate NameLabelAt(s: string, i: nat, k: nat, e: nat) {
    WordAt(s, i, "name") && i + 4 < |s| && IsSeparator(s[i + 4]) && NameAfter(s, i + 5, 0, k, e)
  }

  function MatchNameLabelAt(s: string, i: nat): (r: Option<Span>)
    ensures r.Some? ==> NameLabelAt(s, i, r.value.start, r.value.end)
  {
    if WordAt(s, i, "name") && i + 4 < |s| && IsSeparator(s[i + 4]) then MatchNameAfter(s, i + 5, 0)
    else None
  }

  lemma MatchNameLabelAtIff(s: string, i: nat, k: nat, e: nat)
    ensures MatchNameLabelAt(s, i) == Some(Span(k, e)) <==> NameLabelAt(s, i, k, e)
  {
    if WordAt(s, i, "name") && i + 4 < |s| { MatchNameAfterIff(s, i + 5, 0, k, e); }
  }

  /** The name-label regex tried at each starting position. */
  function NameLabelAttempt(s: string): nat -> Option<Span> {
    (j: nat) => MatchNameLabelAt(s, j)
  }

  /** `emailText.match(nameLabel)`, group 1. */
  function NameLabel(s: string): Option<string> {
    Group(s, FirstMatchFrom(|s|, 0, NameLabelAttempt(s)))
  }

  ghost predicate LeftmostNameLabel(s: string, i: nat, k: nat, e: nat) {
    NameLabelAt(s, i, k, e) && forall j: nat, k': nat, e': nat :: j < i ==> !NameLabelAt(s, j, k', e')
  }

  lemma {:induction false} NameLabelSpec(s: string, u: string)
    ensures NameLabel(s).None? <==> forall i: nat, k: nat, e: nat :: !NameLabelAt(s, i, k, e)
    ensures NameLabel(s) == Some(u) <==> exists i: nat, k: nat, e: nat :: LeftmostNameLabel(s, i, k, e) && u == s[k..e]
  {
    var attempt := NameLabelAttempt(s);
    var m := FirstMatchFrom(|s|, 0, attempt);
    forall i: nat, k: nat, e: nat | NameLabelAt(s, i, k, e)
      ensures m.Some? && m.value.index <= i
    {
      MatchNameLabelAtIff(s, i, k, e);
      assert attempt(i).Some?;
    }
    if m.Some? {
      var i, k, e := m.value.index, m.value.group.start, m.value.group.end;
      MatchNameLabelAtIff(s, i, k, e);
      forall j: nat, k': nat, e': nat | j < i ensures !NameLabelAt(s, j, k', e') {
        MatchNameLabelAtIff(s, j, k', e');
        assert attempt(j).None?;
      }
      assert LeftmostNameLabel(s, i, k, e);
      if exists i': nat, k': nat, e': nat :: LeftmostNameLabel(s, i', k', e') && u == s[k'..e'] {
        var i': nat, k': nat, e': nat :| LeftmostNameLabel(s, i', k', e') && u == s[k'..e'];
        MatchNameLabelAtIff(s, i', k', e');
        assert i' == i;
      }
    }
  }

  // ---------------------------------------------------------------------------
  // Order label: /order(?:\s*number|#| no\.?)?\s*[:\-]?\s*([A-Z0-9\-]+)/i

  /** `[A-Z0-9\-]` under /i: ASCII letters, digits and the hyphen. */
  predicate IsOrderChar(c: char) { IsAsciiLetter(c) || IsDigit(c) || c == '-' }

  /** The optional group after "order" ends at `q` when `p` is where it starts.
      Its alternatives in the order the regex tries them:
      0 `\s*number`, 1 `#`, 2 ` no.`, 3 ` no` (the dot of ` no\.?` is tried first),
      4 the group left out. */
  predicate SuffixAlt(s: string, p: nat, alt: nat, q: nat) {
    if alt == 0 then p + 6 <= q && All(s, p, q - 6, IsSpace) && WordAt(s, q - 6, "number")
    else if alt == 1 then p < |s| && s[p] == '#' && q == p + 1
    else if alt == 2 then p + 4 <= |s| && s[p] == ' ' && WordAt(s, p + 1, "no") && s[p + 3] == '.' && q == p + 4
    else if alt == 3 then p + 3 <= |s| && s[p] == ' ' && WordAt(s, p + 1, "no") && q == p + 3
    else alt == 4 && p <= |s| && q == p
  }

  /** Where alternative `alt` of the optional group ends, if it applies at `p`. */
  function SuffixEnd(s: string, p: nat, alt: nat): (r: Option<nat>)
    requires p <= |s|
    ensures r.Some? ==> r.value <= |s| && SuffixAlt(s, p, alt, r.value)
  {
    if alt == 0 then
      var w := RunEnd(s, p, IsSpace);
      if WordAt(s, w, "number") then Some(w + 6) else None
    else if alt == 1 then
      if p < |s| && s[p] == '#' then Some(p + 1) else None
    else if alt == 2 then
      if p + 4 <= |s| && s[p] == ' ' && WordAt(s, p + 1, "no") && s[p + 3] == '.' then Some(p + 4) else None
    else if alt == 3 then
      if p + 3 <= |s| && s[p] == ' ' && WordAt(s, p + 1, "no") then Some(p + 3) else None
    else if alt == 4 then Some(p)
    else None
  }

  lemma SuffixEndIff(s: string, p: nat, alt: nat, q: nat)
    requires p <= |s|
    ensures SuffixEnd(s, p, alt) == Some(q) <==> SuffixAlt(s, p, alt, q)
  {
    if alt == 0 && SuffixAlt(s, p, alt, q) {
      WordStartsWithLetter(s, q - 6, "number");
      RunEndUnique(s, p, q - 6, IsSpace);
    }
  }

  /** A `[:\-]` at `m`, with only whitespace from `q` to `m` and from `m + 1` to `c`. */
  predicate SeparatorAt(s: string, q: nat, m: nat, c: nat) {
    q <= m < c <= |s| && All(s, q, m, IsSpace) && IsSeparator(s[m]) && All(s, m + 1, c, IsSpace)
  }

  /** `\s*[:\-]?\s*([A-Z0-9\-]+)` from `q`, with the optional separator taken (`sep`)
      or left out, and group 1 `s[c..e]` taken greedily. */
  ghost predicate OrderTail(s: string, q: nat, sep: bool, c: nat, e: nat) {
    && q <= c < e && All(s, c, e, IsOrderChar) && Maximal(s, e, IsOrderChar)
    && if sep then exists m: nat :: SeparatorAt(s, q, m, c) else All(s, q, c, IsSpace)
  }

  /** The tail tried from `q`: the greedy `\s*` first, then the separator taken,
      then the separator left out. */
  function MatchTail(s: string, q: nat): (r: Option<Span>)
    requires q <= |s|
    ensures r.Some? ==> r.value.start < r.value.end <= |s|
  {
    var c0 := RunEnd(s, q, IsSpace);
    if c0 < |s| && IsSeparator(s[c0]) && RunEnd(s, c0 + 1, IsSpace) < |s| && IsOrderChar(s[RunEnd(s, c0 + 1, IsSpace)]) then
      var c := RunEnd(s, c0 + 1, IsSpace);
      Some(Span(c, RunEnd(s, c, IsOrderChar)))
    else if c0 < |s| && IsOrderChar(s[c0]) then
      Some(Span(c0, RunEnd(s, c0, IsOrderChar)))
    else
      None
  }

  lemma TailWithSeparator(s: string, q: nat, c: nat, e: nat)
    requires q <= |s|
    ensures OrderTail(s, q, true, c, e) <==>
              var c0 := RunEnd(s, q, IsSpace);
              && c0 < |s| && IsSeparator(s[c0])
              && c == RunEnd(s, c0 + 1, IsSpace) && c < |s| && IsOrderChar(s[c])
              && e == RunEnd(s, c, IsOrderChar)
  {
    var c0 := RunEnd(s, q, IsSpace);
    if OrderTail(s, q, true, c, e) {
      var m: nat :| SeparatorAt(s, q, m, c);
      assert !IsSpace(s[m]);
      RunEndUnique(s, q, m, IsSpace);
      assert !IsSpace(s[c]);
      RunEndUnique(s, m + 1, c, IsSpace);
      RunEndUnique(s, c, e, IsOrderChar);
    } else if c0 < |s| && IsSeparator(s[c0]) && c == RunEnd(s, c0 + 1, IsSpace) && c < |s| && IsOrderChar(s[c]) {
      assert SeparatorAt(s, q, c0, c);
    }
  }

  lemma TailWithoutSeparator(s: string, q: nat, c: nat, e: nat)
    requires q <= |s|
    ensures OrderTail(s, q, false, c, e) <==>
              var c0 := RunEnd(s, q, IsSpace);
              c == c0 && c0 < |s| && IsOrderChar(s[c0]) && e == RunEnd(s, c0, IsOrderChar)
  {
    if OrderTail(s, q, false, c, e) {
      assert !IsSpace(s[c]);
      RunEndUnique(s, q, c, IsSpace);
      RunEndUnique(s, c, e, IsOrderChar);
    }
  }

  /** The tail matcher returns the group of the decomposition backtracking reaches
      first: the one taking the separator when there is one. */
  lemma MatchTailIff(s: string, q: nat, c: nat, e: nat)
    requires q <= |s|
    ensures MatchTail(s, q) == Some(Span(c, e)) <==>
              || OrderTail(s, q, true, c, e)
              || (OrderTail(s, q, false, c, e) && forall c': nat, e': nat :: !OrderTail(s, q, true, c', e'))
    ensures MatchTail(s, q).None? <==> forall sep: bool, c': nat, e': nat :: !OrderTail(s, q, sep, c', e')
  {
    var c0 := RunEnd(s, q, IsSpace);
    TailWithSeparator(s, q, c, e);
    TailWithoutSeparator(s, q, c, e);
    forall sep: bool, c': nat, e': nat ensures OrderTail(s, q, sep, c', e') ==> MatchTail(s, q).Some? {
      TailWithSeparator(s, q, c', e');
      TailWithoutSeparator(s, q, c', e');
    }
    if MatchTail(s, q).Some? {
      var c1, e1 := MatchTail(s, q).value.start, MatchTail(s, q).value.end;
      TailWithSeparator(s, q, c1, e1);
      TailWithoutSeparator(s, q, c1, e1);
    }
    if c0 < |s| && IsSeparator(s[c0]) && RunEnd(s, c0 + 1, IsSpace) < |s| && IsOrderChar(s[RunEnd(s, c0 + 1, IsSpace)]) {
    } else {
      forall c': nat, e': nat ensures !OrderTail(s, q, true, c', e') {
        TailWithSeparator(s, q, c', e');
      }
    }
  }

  /** An order-label match starts at `i`, the optional group takes alternative `alt`
      and ends at `q`, the separator is taken or not (`sep`), and group 1 is `s[c..e]`. */
  ghost predicate OrderLabelAt(s: string, i: nat, alt: nat, q: nat, sep: bool, c: nat, e: nat) {
    WordAt(s, i, "order") && SuffixAlt(s, i + 5, alt, q) && OrderTail(s, q, sep, c, e)
  }

  /** Some decomposition of an order-label match at `i` uses alternative `alt`. */
  ghost predicate AltMatches(s: string, i: nat, alt: nat) {
    exists q: nat, sep: bool, c: nat, e: nat :: OrderLabelAt(s, i, alt, q, sep, c, e)
  }

  /** Some tail from `q` takes the separator. */
  ghost predicate TailTakesSeparator(s: string, q: nat) {
    exists c: nat, e: nat :: OrderTail(s, q, true, c, e)
  }

  /** Alternative `alt` leads to a match with group 1 `s[c..e]`, and within it the
      separator is left out only when taking it leads to none. */
  ghost predicate AltMatchesWith(s: string, i: nat, alt: nat, c: nat, e: nat) {
    exists q: nat, sep: bool :: OrderLabelAt(s, i, alt, q, sep, c, e) && (!sep ==> !TailTakesSeparator(s, q))
  }

  /** The decomposition at `i` that backtracking reaches first: no earlier alternative
      of the optional group leads to any match. */
  ghost predicate PreferredOrderLabelAt(s: string, i: nat, alt: nat, c: nat, e: nat) {
    AltMatchesWith(s, i, alt, c, e) && forall a: nat :: a < alt ==> !AltMatches(s, i, a)
  }

  /** Alternative `alt` tried alone: the group end it fixes, then the tail from there. */
  lemma AltIff(s: string, i: nat, alt: nat, c: nat, e: nat)
    requires WordAt(s, i, "order")
    ensures var r := SuffixEnd(s, i + 5, alt);
            && (AltMatches(s, i, alt) <==> r.Some? && MatchTail(s, r.value).Some?)
            && (r.Some? ==> (MatchTail(s, r.value) == Some(Span(c, e)) <==> AltMatchesWith(s, i, alt, c, e)))
  {
    AltMatchesIff(s, i, alt);
    if SuffixEnd(s, i + 5, alt).Some? {
      AltGroupIff(s, i, alt, c, e);
    }
  }

  /** Some decomposition uses alternative `alt` exactly when the tail matches after it. */
  lemma AltMatchesIff(s: string, i: nat, alt: nat)
    requires WordAt(s, i, "order")
    ensures var r := SuffixEnd(s, i + 5, alt);
            AltMatches(s, i, alt) <==> r.Some? && MatchTail(s, r.value).Some?
  {
    var p := i + 5;
    var r := SuffixEnd(s, p, alt);
    if r.Some? && MatchTail(s, r.value).Some? {
      var q0 := r.value;
      var c1, e1 := MatchTail(s, q0).value.start, MatchTail(s, q0).value.end;
      SuffixEndIff(s, p, alt, q0);
      MatchTailIff(s, q0, c1, e1);
      assert OrderLabelAt(s, i, alt, q0, OrderTail(s, q0, true, c1, e1), c1, e1);
    }
    if AltMatches(s, i, alt) {
      var q: nat, sep: bool, c': nat, e': nat :| OrderLabelAt(s, i, alt, q, sep, c', e');
      SuffixEndIff(s, p, alt, q);
      MatchTailIff(s, q, c', e');
    }
  }

  /** After alternative `alt`, the tail's group is the one that alternative leads to. */
  lemma AltGroupIff(s: string, i: nat, alt: nat, c: nat, e: nat)
    requires WordAt(s, i, "order") && SuffixEnd(s, i + 5, alt).Some?
    ensures MatchTail(s, SuffixEnd(s, i + 5, alt).value) == Some(Span(c, e)) <==> AltMatchesWith(s, i, alt, c, e)
  {
    var p := i + 5;
    var q0 := SuffixEnd(s, p, alt).value;
    SuffixEndIff(s, p, alt, q0);
    MatchTailIff(s, q0, c, e);
    if MatchTail(s, q0) == Some(Span(c, e)) {
      var sep := OrderTail(s, q0, true, c, e);
      assert OrderLabelAt(s, i, alt, q0, sep, c, e);
    }
    if AltMatchesWith(s, i, alt, c, e) {
      var q: nat, sep: bool :| OrderLabelAt(s, i, alt, q, sep, c, e) && (!sep ==> !TailTakesSeparator(s, q));
      SuffixEndIff(s, p, alt, q);
      assert q == q0;
    }
  }

  /** Alternatives `alt`, `alt + 1`, ... of the optional group tried in order at `i`. */
  function MatchOrderLabelFrom(s: string, i: nat, alt: nat): (r: Option<Span>)
    requires i + 5 <= |s|
    ensures r.Some? ==> r.value.start < r.value.end <= |s|
    decreases 5 - alt
  {
    if alt > 4 then None
    else match SuffixEnd(s, i + 5, alt)
      case Some(q) =>
        if MatchTail(s, q).Some? then MatchTail(s, q) else MatchOrderLabelFrom(s, i, alt + 1)
      case None => MatchOrderLabelFrom(s, i, alt + 1)
  }

  /** The order-label regex tried at position `i`. */
  function MatchOrderLabelAt(s: string, i: nat): (r: Option<Span>)
    ensures r.Some? ==> r.value.start < r.value.end <= |s|
  {
    if WordAt(s, i, "order") then MatchOrderLabelFrom(s, i, 0) else None
  }

  /** Trying the alternatives from `alt` on finds the first one that leads to a match. */
  lemma MatchOrderLabelFromIff(s: string, i: nat, alt: nat, c: nat, e: nat)
    requires WordAt(s, i, "order")
    ensures MatchOrderLabelFrom(s, i, alt) == Some(Span(c, e)) <==>
              exists a: nat :: alt <= a && AltMatchesWith(s, i, a, c, e) && forall b: nat :: alt <= b < a ==> !AltMatches(s, i, b)
    ensures MatchOrderLabelFrom(s, i, alt).None? <==> forall a: nat :: alt <= a ==> !AltMatches(s, i, a)
  {
    MatchOrderLabelFromSome(s, i, alt, c, e);
    MatchOrderLabelFromNone(s, i, alt);
  }

  lemma {:induction false} MatchOrderLabelFromSome(s: string, i: nat, alt: nat, c: nat, e: nat)
    requires WordAt(s, i, "order")
    ensures MatchOrderLabelFrom(s, i, alt) == Some(Span(c, e)) <==>
              exists a: nat :: alt <= a && AltMatchesWith(s, i, a, c, e) && forall b: nat :: alt <= b < a ==> !AltMatches(s, i, b)
    decreases 5 - alt
  {
    if alt <= 4 {
      MatchOrderLabelFromSome(s, i, alt + 1, c, e);
      AltIff(s, i, alt, c, e);
      var r := SuffixEnd(s, i + 5, alt);
      if r.Some? && MatchTail(s, r.value).Some? {
        assert MatchOrderLabelFrom(s, i, alt) == MatchTail(s, r.value);
      } else {
        assert !AltMatches(s, i, alt);
        assert MatchOrderLabelFrom(s, i, alt) == MatchOrderLabelFrom(s, i, alt + 1);
      }
    } else {
      forall a: nat | alt <= a ensures !AltMatchesWith(s, i, a, c, e) {
        AltBeyondLast(s, i, a, c, e);
      }
    }
  }

  lemma {:induction false} MatchOrderLabelFromNone(s: string, i: nat, alt: nat)
    requires WordAt(s, i, "order")
    ensures MatchOrderLabelFrom(s, i, alt).None? <==> forall a: nat :: alt <= a ==> !AltMatches(s, i, a)
    decreases 5 - alt
  {
    if alt <= 4 {
      MatchOrderLabelFromNone(s, i, alt + 1);
      AltMatchesIff(s, i, alt);
    } else {
      forall a: nat | alt <= a ensures !AltMatches(s, i, a) {
        AltBeyondLast(s, i, a, 0, 0);
      }
    }
  }

  /** The optional group has five alternatives, numbered 0 to 4. */
  lemma AltBeyondLast(s: string, i: nat, a: nat, c: nat, e: nat)
    ensures a > 4 ==> !AltMatches(s, i, a) && !AltMatchesWith(s, i, a, c, e)
  {
  }

  /** At each position the matcher returns the group of the preferred decomposition,
      and nothing exactly when no decomposition exists. */
  lemma MatchOrderLabelAtIff(s: string, i: nat, c: nat, e: nat)
    ensures MatchOrderLabelAt(s, i) == Some(Span(c, e)) <==> exists a: nat :: PreferredOrderLabelAt(s, i, a, c, e)
    ensures MatchOrderLabelAt(s, i).None? <==> forall a: nat :: !AltMatches(s, i, a)
  {
    if WordAt(s, i, "order") {
      MatchOrderLabelFromIff(s, i, 0, c, e);
      if MatchOrderLabelAt(s, i) == Some(Span(c, e)) {
        var a: nat :| AltMatchesWith(s, i, a, c, e) && forall b: nat :: b < a ==> !AltMatches(s, i, b);
        assert PreferredOrderLabelAt(s, i, a, c, e);
      }
    }
  }

  /** The preferred decomposition is a decomposition. */
  lemma PreferredMatches(s: string, i: nat, a: nat, c: nat, e: nat)
    requires PreferredOrderLabelAt(s, i, a, c, e)
    ensures AltMatches(s, i, a)
  {
    var q: nat, sep: bool :| OrderLabelAt(s, i, a, q, sep, c, e) && (!sep ==> !TailTakesSeparator(s, q));
  }

  /** The order-label regex tried at each starting position. */
  function OrderLabelAttempt(s: string): nat -> Option<Span> {
    (j: nat) => MatchOrderLabelAt(s, j)
  }

  /** `emailText.match(orderLabel)`, group 1. */
  function OrderLabel(s: string): Option<string> {
    Group(s, FirstMatchFrom(|s|, 0, OrderLabelAttempt(s)))
  }

  ghost predicate LeftmostOrderLabel(s: string, i: nat, c: nat, e: nat) {
    (exists a: nat :: PreferredOrderLabelAt(s, i, a, c, e)) && forall j: nat, a: nat :: j < i ==> !AltMatches(s, j, a)
  }

  lemma {:induction false} OrderLabelSpec(s: string, v: string)
    ensures OrderLabel(s).None? <==> forall i: nat, a: nat :: !AltMatches(s, i, a)
    ensures OrderLabel(s) == Some(v) <==> exists i: nat, c: nat, e: nat :: LeftmostOrderLabel(s, i, c, e) && v == s[c..e]
  {
    var attempt := OrderLabelAttempt(s);
    var m := FirstMatchFrom(|s|, 0, attempt);
    forall i: nat, a: nat | AltMatches(s, i, a)
      ensures m.Some? && m.value.index <= i
    {
      MatchOrderLabelAtIff(s, i, 0, 0);
      assert attempt(i).Some?;
    }
    if m.Some? {
      var i, c, e := m.value.index, m.value.group.start, m.value.group.end;
      MatchOrderLabelAtIff(s, i, c, e);
      forall j: nat, a: nat | j < i ensures !AltMatches(s, j, a) {
        MatchOrderLabelAtIff(s, j, 0, 0);
        assert attempt(j).None?;
      }
      assert LeftmostOrderLabel(s, i, c, e);
      if exists i': nat, c': nat, e': nat :: LeftmostOrderLabel(s, i', c', e') && v == s[c'..e'] {
        var i': nat, c': nat, e': nat :| LeftmostOrderLabel(s, i', c', e') && v == s[c'..e'];
        MatchOrderLabelAtIff(s, i', c', e');
        var a': nat :| PreferredOrderLabelAt(s, i', a', c', e');
        PreferredMatches(s, i', a', c', e');
        assert attempt(i').Some?;
        assert i' == i;
      }
    } else if exists i': nat, c': nat, e': nat :: LeftmostOrderLabel(s, i', c', e') && v == s[c'..e'] {
      var i': nat, c': nat, e': nat :| LeftmostOrderLabel(s, i', c', e') && v == s[c'..e'];
      var a': nat :| PreferredOrderLabelAt(s, i', a', c', e');
      PreferredMatches(s, i', a', c', e');
    }
  }

  // ---------------------------------------------------------------------------
  // Fallback: /\b([A-Z0-9]{6,})\b/ (no /i flag)

  /** `[A-Z0-9]` */
  predicate IsUpperOrDigit(c: char) { IsUpper(c) || IsDigit(c) }

  /** `\b` at position `i`: exactly one of the characters either side of it is a word character. */
  predicate Boundary(s: string, i: nat) {
    i <= |s| && ((0 < i && IsWordChar(s[i - 1])) != (i < |s| && IsWordChar(s[i])))
  }

  /** A fallback match at `i` whose group 1 is `s[i..e]`. */
  predicate FallbackAt(s: string, i: nat, e: nat) {
    Boundary(s, i) && i + 6 <= e && All(s, i, e, IsUpperOrDigit) && Boundary(s, e)
  }

  /** The fallback regex tried at `i`: the greedy `{6,}` takes the longest run, and no
      shorter run could be followed by `\b`. */
  function MatchFallbackAt(s: string, i: nat): (r: Option<Span>)
    ensures r.Some? ==> r.value.start == i && FallbackAt(s, i, r.value.end)
  {
    if Boundary(s, i) then
      var e := RunEnd(s, i, IsUpperOrDigit);
      if i + 6 <= e && Boundary(s, e) then Some(Span(i, e)) else None
    else None
  }

  lemma MatchFallbackAtIff(s: string, i: nat, k: nat, e: nat)
    ensures MatchFallbackAt(s, i) == Some(Span(k, e)) <==> k == i && FallbackAt(s, i, e)
  {
    if FallbackAt(s, i, e) {
      assert IsWordChar(s[e - 1]);
      RunEndUnique(s, i, e, IsUpperOrDigit);
    }
  }

  /** The fallback regex tried at each starting position. */
  function FallbackAttempt(s: string): nat -> Option<Span> {
    (j: nat) => MatchFallbackAt(s, j)
  }

  /** `emailText.match(fallback)`, group 1. */
  function Fallback(s: string): Option<string> {
    Group(s, FirstMatchFrom(|s|, 0, FallbackAttempt(s)))
  }

  ghost predicate LeftmostFallback(s: string, i: nat, e: nat) {
    FallbackAt(s, i, e) && forall j: nat, e': nat :: j < i ==> !FallbackAt(s, j, e')
  }

  lemma {:induction false} FallbackSpec(s: string, v: string)
    ensures Fallback(s).None? <==> forall i: nat, e: nat :: !FallbackAt(s, i, e)
    ensures Fallback(s) == Some(v) <==> exists i: nat, e: nat :: LeftmostFallback(s, i, e) && v == s[i..e]
  {
    var attempt := FallbackAttempt(s);
    var m := FirstMatchFrom(|s|, 0, attempt);
    forall i: nat, e: nat | FallbackAt(s, i, e)
      ensures m.Some? && m.value.index <= i
    {
      MatchFallbackAtIff(s, i, i, e);
      assert attempt(i).Some?;
    }
    if m.Some? {
      var i, e := m.value.index, m.value.group.end;
      MatchFallbackAtIff(s, i, m.value.group.start, e);
      forall j: nat, e': nat | j < i ensures !FallbackAt(s, j, e') {
        MatchFallbackAtIff(s, j, j, e');
        assert attempt(j).None?;
      }
      assert LeftmostFallback(s, i, e);
      if exists i': nat, e': nat :: LeftmostFallback(s, i', e') && v == s[i'..e'] {
        var i': nat, e': nat :| LeftmostFallback(s, i', e') && v == s[i'..e'];
        MatchFallbackAtIff(s, i', i', e');
        assert i' == i;
      }
    }
  }
}
