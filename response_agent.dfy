/** `responseAgent`: turns the model's JSON answer into the first draft, with
    fallbacks when the model said nothing or answered with something other than JSON. */
module ResponseAgent {
  import opened Wrappers
  import opened Completion

  /** `ResponseAgentResult`: the reply text and the sender name and order number
      extracted from the email, each `null` when absent. */
  datatype ResponseAgentResult = ResponseAgentResult(reply: string, username: Option<string>, orderNumber: Option<string>)

  /** The draft for the completion `content`; `parse` is `JSON.parse` followed by
      the unchecked cast to `ResponseAgentResult` (None when `JSON.parse` throws). */
  function ResponseDraft(content: Content, parse: string -> Option<ResponseAgentResult>): (d: ResponseAgentResult)
    ensures IsBlank(content) ==> d == ResponseAgentResult("", None, None)
    ensures !IsBlank(content) && parse(content.value).Some? ==> d == parse(content.value).value
    ensures !IsBlank(content) && parse(content.value).None? ==> d == ResponseAgentResult(content.value, None, None)
    ensures d.username.Some? || d.orderNumber.Some? ==> !IsBlank(content) && parse(content.value) == Some(d)
  {
    if IsBlank(content) then
      ResponseAgentResult("", None, None)
    else
      match parse(content.value)
      case Some(parsed) => parsed
      case None => ResponseAgentResult(content.value, None, None)
  }
}
