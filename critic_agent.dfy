/** `criticAgent`: turns the model's JSON answer into a verdict, with a fallback
    verdict when the model said nothing and another when its answer was not JSON. */
module CriticAgent {
  import opened Wrappers
  import opened Completion

  /** `CriticAgentResult`: whether the reply may be sent, and why (not). */
  datatype CriticAgentResult = CriticAgentResult(approved: bool, critique: string)

  const NoResponseCritique: string := "No response from model"
  const ParseFailurePrefix: string := "Failed to parse critic JSON: "

  /** The verdict for the completion `content`; `parse` is `JSON.parse` followed by
      the unchecked cast to `CriticAgentResult` (None when `JSON.parse` throws). */
  function CriticVerdict(content: Content, parse: string -> Option<CriticAgentResult>): (v: CriticAgentResult)
    ensures IsBlank(content) ==> v == CriticAgentResult(false, NoResponseCritique)
    ensures !IsBlank(content) && parse(content.value).Some? ==> v == parse(content.value).value
    ensures !IsBlank(content) && parse(content.value).None? ==>
              !v.approved && RawContent(v.critique) == Some(content.value)
    ensures v.approved ==> !IsBlank(content) && parse(content.value) == Some(v)
  {
    if IsBlank(content) then
      CriticAgentResult(false, NoResponseCritique)
    else
      match parse(content.value)
      case Some(parsed) => parsed
      case None => CriticAgentResult(false, ParseFailurePrefix + content.value)
  }

  /** Reads back the raw model output kept in a parse-failure critique. */
  function RawContent(critique: string): (raw: Option<string>)
    ensures raw.Some? <==> |ParseFailurePrefix| <= |critique| && critique[..|ParseFailurePrefix|] == ParseFailurePrefix
    ensures raw.Some? ==> critique == ParseFailurePrefix + raw.value
  {
    if |ParseFailurePrefix| <= |critique| && critique[..|ParseFailurePrefix|] == ParseFailurePrefix then
      Some(critique[|ParseFailurePrefix|..])
    else
      None
  }

  /** Every verdict the critic makes up itself rejects the reply: approval is
      only ever the model's own, parsed answer. */
  lemma FallbackVerdictsReject(content: Content, parse: string -> Option<CriticAgentResult>)
    requires IsBlank(content) || parse(content.value).None?
    ensures !CriticVerdict(content, parse).approved
  {
  }
}
