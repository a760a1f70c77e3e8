/** Worked examples of the extraction on concrete email texts, each exhibiting one
    consequence of how the regular expressions are written. */
module ReviseExamples {
  import opened Wrappers
  import opened Text
  import opened RevisePatterns
  import opened ReviseAgent

  /** There is no word boundary after "order": in "I ordered" the group left out and
      the tail capture "ed". */
  lemma OrderedCapturesEd(s: string)
    requires s == "I ordered"
    ensures OrderNumber(s) == Some("ed")
  {
    forall j: nat | j < 2 ensures MatchOrderLabelAt(s, j).None? {
      assert !WordAt(s, j, "order") by { assert Lower(s[j + 0]) != "order"[0]; }
    }
    OrderedTail(s);
    FirstMatchSkips(|s|, 0, 2, OrderLabelAttempt(s));
    assert s[7..9] == "ed";
  }

  /** Every suffix alternative but the empty one fails after "order" in "I ordered",
      and the tail then takes "ed". */
  lemma OrderedTail(s: string)
    requires s == "I ordered"
    ensures MatchOrderLabelAt(s, 2) == Some(Span(7, 9))
  {
    assert WordAt(s, 2, "order");
    assert RunEnd(s, 7, IsSpace) == 7;
    assert SuffixEnd(s, 7, 0) == None;
    assert SuffixEnd(s, 7, 1) == None;
    assert SuffixEnd(s, 7, 2) == None;
    assert SuffixEnd(s, 7, 3) == None;
    assert RunEnd(s, 7, IsOrderChar) == 9;
    assert MatchTail(s, 7) == Some(Span(7, 9));
    assert MatchOrderLabelFrom(s, 2, 4) == Some(Span(7, 9));
  }

  /** "order number?": `\s*number` leads to no tail, so backtracking leaves the
      optional group out and the tail captures "number" itself. */
  lemma BacktracksOverNumber(s: string)
    requires s == "order number?"
    ensures OrderNumber(s) == Some("number")
  {
    NumberTail(s);
    assert OrderLabel(s) == Some(s[6..12]);
    assert s == "order " + "number" + "?";
  }

  /** The first alternative, `\s*number`, leaves nothing for the tail; the next three
      fail; the empty one lets the tail capture "number". */
  lemma NumberTail(s: string)
    requires s == "order number?"
    ensures MatchOrderLabelAt(s, 0) == Some(Span(6, 12))
  {
    assert WordAt(s, 0, "order");
    assert MatchTail(s, 12) == None;
    assert RunEnd(s, 6, IsSpace) == 6;
    assert RunEnd(s, 5, IsSpace) == 6;
    assert SuffixEnd(s, 5, 0) == Some(12);
    assert SuffixEnd(s, 5, 2) == None by { assert Lower(s[6 + 1]) != "no"[1]; }
    assert SuffixEnd(s, 5, 3) == None by { assert Lower(s[6 + 1]) != "no"[1]; }
    assert MatchTail(s, 5) == Some(Span(6, 12));
  }

  /** With no "order" in the text the fallback applies; being case-sensitive it
      skips "Ref" and finds the run of capitals and digits. */
  lemma FallbackFindsCode(s: string)
    requires s == "Ref ABC123"
    ensures OrderNumber(s) == Some("ABC123")
  {
    NoOrderLabelInRef(s);
    NoFallbackBeforeCode(s);
    FallbackAtCode(s);
    FirstMatchSkips(|s|, 0, 4, FallbackAttempt(s));
    assert FirstMatchFrom(|s|, 4, FallbackAttempt(s)) == Some(RegexMatch(4, Span(4, 10)));
    assert Fallback(s) == Some(s[4..10]);
    CodeSlice(s);
  }

  lemma CodeSlice(s: string)
    requires s == "Ref ABC123"
    ensures s[4..10] == "ABC123"
  {
    assert s == "Ref " + "ABC123";
  }

  lemma NoFallbackBeforeCode(s: string)
    requires s == "Ref ABC123"
    ensures forall j: nat :: j < 4 ==> MatchFallbackAt(s, j) == None
  {
    assert RunEnd(s, 1, IsUpperOrDigit) == 1;
  }

  lemma FallbackAtCode(s: string)
    requires s == "Ref ABC123"
    ensures MatchFallbackAt(s, 4) == Some(Span(4, 10))
  {
    assert FallbackAt(s, 4, 10);
    MatchFallbackAtIff(s, 4, 4, 10);
  }

  lemma NoOrderLabelInRef(s: string)
    requires s == "Ref ABC123"
    ensures OrderLabel(s) == None
  {
    forall j: nat ensures MatchOrderLabelAt(s, j) == None {
      if j + 5 <= |s| { assert Lower(s[j + 0]) != "order"[0]; }
    }
    FirstMatchSkips(|s|, 0, |s| + 1, OrderLabelAttempt(s));
  }
}
