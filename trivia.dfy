/**
 * The decision of `getPokemonTrivia` once the chat-completion reply is in:
 * the first choice's message content, or a fixed fallback sentence.
 */
module Trivia {
  import opened Wrappers

  /** The sentence shown whenever no trivia can be had. */
  const FALLBACK: string := "Trivia not available for this Pokémon."

  /** One entry of `data.choices`: its `message.content` (None when missing or null). */
  datatype Choice = Choice(content: Option<string>)

  /**
   * How the lookup ended: the request or the body parse failed (or the body
   * was null), or a body arrived whose `choices` field may be missing.
   */
  datatype Reply = Failed | Body(choices: Option<seq<Choice>>)

  /** Does the reply carry usable trivia: a non-empty first choice content? */
  predicate HasTrivia(reply: Reply)
  {
    && reply.Body?
    && reply.choices.Some?
    && |reply.choices.value| > 0
    && reply.choices.value[0].content.Some?
    && reply.choices.value[0].content.value != ""
  }

  /**
   * `triviaMessage || 'Trivia not available…'` inside the `try`, and the same
   * fallback from the `catch` for a failed request, a missing or empty
   * `choices` list, or (through the thrown error) no choices at all.
   */
  function SelectTrivia(reply: Reply): (trivia: string)
  {
    match reply
    case Failed => FALLBACK
    case Body(choices) =>
      match choices
      case None => FALLBACK
      case Some(list) =>
        if |list| > 0 then
          (match list[0].content
           case Some(text) => if text != "" then text else FALLBACK
           case None => FALLBACK)
        else FALLBACK
  }

  /**
   * With usable trivia the first choice's content is shown; in every other case
   * the fallback sentence is. Either way the overlay never receives an empty
   * string.
   */
  lemma SelectTriviaSpec(reply: Reply)
    ensures HasTrivia(reply) ==> SelectTrivia(reply) == reply.choices.value[0].content.value
    ensures !HasTrivia(reply) ==> SelectTrivia(reply) == FALLBACK
    ensures SelectTrivia(reply) != ""
  {
  }

  /** Only the first choice matters: later choices never change the trivia shown. */
  lemma OnlyFirstChoiceCounts(first: Choice, rest: seq<Choice>, other: seq<Choice>)
    ensures SelectTrivia(Body(Some([first] + rest))) == SelectTrivia(Body(Some([first] + other)))
  {
  }
}
