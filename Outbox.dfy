/**
 * The sending side of the bot: the process-wide message id counter, the
 * construction of each outgoing message (`generateResponse`), and the reply
 * task (`postReply`), which sends exactly one message. Calls are taken one at
 * a time; the encoding and the write to the connection are not modelled, so
 * each operation returns the message it would write.
 */
module Outbox {
  import opened Responses
  import opened Reply
  import opened Wrappers
  import opened Dispatch

  /** An outgoing frame (`outgoingMessage`). */
  datatype OutgoingMessage = OutgoingMessage(id: nat, kind: string, channel: string, text: string)

  /** The ids handed out by the first `n` messages, in order. */
  function IdsUpTo(n: nat): (ids: seq<nat>)
    ensures |ids| == n
    ensures forall k :: 0 <= k < n ==> ids[k] == k + 1
  {
    if n == 0 then [] else IdsUpTo(n - 1) + [n]
  }

  /** Ids are handed out in strictly increasing order, so no id is handed
      out twice, and a new id exceeds every earlier one. */
  lemma IdsIncreasing(n: nat)
    ensures forall i, j :: 0 <= i < j < n ==> IdsUpTo(n)[i] < IdsUpTo(n)[j]
    ensures forall i :: 0 <= i < n ==> IdsUpTo(n)[i] < n + 1
    ensures n > 0 ==> IdsUpTo(n)[0] == 1
  {
  }

  /** End to end: a message "<@U1> why is the sky blue?" on channel "C1"
      to the bot "U1" (here any bot and any channel) starts one reply task,
      on that channel, and the task sends the tarot text. */
  lemma EndToEndExample(userId: string, channel: string, r: nat)
    ensures Listen(userId, [Received(Some(IncomingMessage("message", "", channel, "", Mention(userId) + " why is the sky blue?", "")))])
      == [ReplyTask("why is the sky blue?", channel)]
    ensures ReplyText("why is the sky blue?", r) == NotTarot
  {
    var query := "why is the sky blue?";
    assert Mention(userId) + " why is the sky blue?" == Mention(userId) + " " + query;
    ListenMentionedQuery(userId, channel, query);
    OpenEndedExample();
  }

  /** The state the bot shares between its reply tasks. */
  class Session {
    /** `idCounter`: the id of the last message built, 0 before the first. */
    var idCounter: nat
    /** The ids handed out so far, in order. */
    ghost var issued: seq<nat>

    ghost predicate Valid()
      reads this
    {
      issued == IdsUpTo(idCounter)
    }

    constructor ()
      ensures Valid() && idCounter == 0 && issued == []
    {
      idCounter := 0;
      issued := [];
    }

    /** `generateResponse`: bumps the counter by one and builds a message of
        type "message" on `channel` with `text`, carrying the new count as
        its id. */
    method GenerateResponse(channel: string, text: string) returns (m: OutgoingMessage)
      requires Valid()
      modifies this
      ensures Valid()
      ensures idCounter == old(idCounter) + 1
      ensures issued == old(issued) + [m.id]
      ensures m == OutgoingMessage(idCounter, "message", channel, text)
      ensures forall k :: 0 <= k < |old(issued)| ==> old(issued)[k] < m.id
    {
      idCounter := idCounter + 1;
      issued := issued + [idCounter];
      m := OutgoingMessage(idCounter, "message", channel, text);
    }

    /** `postReply`: answers `query` on `channel` with exactly one message,
        whose text `ReplyText` gives for the random draw `r`. */
    method PostReply(query: string, channel: string, r: nat) returns (m: OutgoingMessage)
      requires Valid()
      modifies this
      ensures Valid()
      ensures idCounter == old(idCounter) + 1 && issued == old(issued) + [m.id]
      ensures m == OutgoingMessage(idCounter, "message", channel, ReplyText(query, r))
    {
      if !EndsWithQuestionMark(query) {
        m := GenerateResponse(channel, NoQuestion);
        return;
      }
      if IsOpenEnded(query) {
        m := GenerateResponse(channel, NotTarot);
        return;
      }
      var answer := MagicResponse[r % |MagicResponse|];
      m := GenerateResponse(channel, answer);
    }
  }
}
