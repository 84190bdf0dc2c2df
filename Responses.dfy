/** The bot's fixed table of canned yes/no answers and the way one is picked. */
module Responses {

  /** The twenty answers, in the order of the source table. */
  const MagicResponse: seq<string> := [
    "Signs point to no.",
    "Yes.",
    "Reply hazy, try again.",
    "Without a doubt.",
    "My sources say no.",
    "As I see it, yes.",
    "You may rely on it.",
    "Concentrate and ask again.",
    "Outlook not so good.",
    "It is decidedly so.",
    "Better not tell you now.",
    "Very doubtful.",
    "Yes - definitely.",
    "It is certain.",
    "Cannot predict now.",
    "Most likely.",
    "Ask again later.",
    "My reply is no.",
    "Outlook good.",
    "Don't count on it."
  ]

  /** The answer chosen by the non-negative random draw `r`
      (`magicResponse[rand.Int() % len(magicResponse)]`): the index is always
      in range, so the answer is always one of the table's entries. */
  function Answer(r: nat): (a: string)
    ensures a in MagicResponse
    ensures |MagicResponse| == 20 && a == MagicResponse[r % 20]
  {
    MagicResponse[r % |MagicResponse|]
  }

  /** No two entries of the table are the same text. */
  lemma EntriesDistinct()
    ensures forall i, j :: 0 <= i < j < |MagicResponse| ==> MagicResponse[i] != MagicResponse[j]
  {
  }

  /** Each entry is picked by exactly one residue of the draw modulo 20, so a
      uniform draw gives every answer the same chance. */
  lemma AnswerIsEntryIff(r: nat, i: nat)
    requires i < |MagicResponse|
    ensures Answer(r) == MagicResponse[i] <==> r % 20 == i
  {
    EntriesDistinct();
  }
}
