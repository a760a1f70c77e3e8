/** The text a chat completion hands back: `completion.choices[0].message.content`,
    a string or `null`. */
module Completion {
  import opened Wrappers

  type Content = Option<string>

  /** `!content`: JavaScript treats both `null` and `""` as false. */
  predicate IsBlank(content: Content) {
    content == None || content == Some("")
  }

  /** `content || ""`: the text, or the empty string when there is none. */
  function OrEmpty(content: Content): (text: string)
    ensures text == "" <==> IsBlank(content)
    ensures content.Some? ==> text == content.value
  {
    match content
    case None => ""
    case Some(text) => text
  }
}
