/** `classifierAgent`: the model's one-word category for the summary, normalised
    by `(content || "").trim().toLowerCase()`. The category is not checked against
    urgent / normal / spam: whatever token comes back is returned. */
module ClassifierAgent {
  import opened Wrappers
  import opened Text
  import opened Completion

  /** `category` is the lower-cased slice of `text` starting at `a`, and everything
      of `text` outside that slice is whitespace. */
  ghost predicate LoweredSliceAt(text: string, a: nat, category: string) {
    && a + |category| <= |text|
    && (forall i :: 0 <= i < |category| ==> category[i] == Lower(text[a + i]))
    && (forall t :: 0 <= t < a ==> IsSpace(text[t]))
    && (forall t :: a + |category| <= t < |text| ==> IsSpace(text[t]))
  }

  /** A category as the pipeline may pass it on: no surrounding whitespace, no capitals. */
  predicate IsNormalised(category: string) {
    && (category == [] || (!IsSpace(category[0]) && !IsSpace(category[|category| - 1])))
    && (forall i :: 0 <= i < |category| ==> !IsUpper(category[i]))
  }

  /** The classifier's answer for the completion `content`. */
  function Classify(content: Content): (category: string)
    ensures IsBlank(content) ==> category == ""
  {
    LowerAll(Trim(OrEmpty(content)))
  }

  /** The category is the model's text, trimmed of whitespace at both ends and
      lower-cased, and nothing else. */
  lemma ClassifySpec(content: Content)
    ensures IsNormalised(Classify(content))
    ensures exists a :: LoweredSliceAt(OrEmpty(content), a, Classify(content))
  {
    ClassifyNormalised(content);
    var text := OrEmpty(content);
    var trimmed := Trim(text);
    var a :| StrippedAt(text, a, trimmed);
    TrimmedLowered(text, a, trimmed);
  }

  lemma ClassifyNormalised(content: Content)
    ensures IsNormalised(Classify(content))
  {
    var trimmed := Trim(OrEmpty(content));
    if trimmed != [] {
      LowerKeepsSpace(trimmed[0]);
      LowerKeepsSpace(trimmed[|trimmed| - 1]);
    }
  }

  lemma TrimmedLowered(text: string, a: nat, trimmed: string)
    requires StrippedAt(text, a, trimmed)
    ensures LoweredSliceAt(text, a, LowerAll(trimmed))
  {
    forall i | 0 <= i < |trimmed| ensures LowerAll(trimmed)[i] == Lower(text[a + i]) {
      assert trimmed[i] == text[a + i];
    }
  }

  /** There is no membership check: every normalised token, "urgent" or not,
      comes back exactly as the model wrote it. */
  lemma ClassifyPassesThrough(token: string)
    requires IsNormalised(token)
    ensures Classify(Some(token)) == token
  {
    TrimIdempotent(token);
    assert LowerAll(token) == token;
  }

  /** Normalising a normalised category again changes nothing. */
  lemma ClassifyIdempotent(content: Content)
    ensures Classify(Some(Classify(content))) == Classify(content)
  {
    ClassifySpec(content);
    ClassifyPassesThrough(Classify(content));
  }
}
