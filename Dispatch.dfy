/**
 * The read loop of the bot: each received frame is decoded into an inbound
 * message, and a message of type "message" whose text starts with the bot's
 * mention gets its query handed to a reply task. The loop ends at the first
 * receive error.
 */
module Dispatch {
  import opened Wrappers
  import opened Strings

  /** A decoded inbound frame (`incomingMessage`). */
  datatype IncomingMessage = IncomingMessage(
    kind: string, subType: string, channel: string, user: string, text: string, timeStamp: string)

  /** What one receive on the connection yields: a frame, whose decoding may
      have failed (`None`), or an error, which ends the loop. */
  datatype Receive = Received(decoded: Option<IncomingMessage>) | ReadFailed

  /** A reply task to launch: the query and the channel to answer on. */
  datatype ReplyTask = ReplyTask(query: string, channel: string)

  /** The message a frame leaves behind: a frame that does not decode leaves
      the zero value, whose type is empty. */
  function MessageOf(decoded: Option<IncomingMessage>): (m: IncomingMessage)
    ensures decoded.None? ==> m.kind == ""
  {
    match decoded
    case Some(m) => m
    case None => IncomingMessage("", "", "", "", "", "")
  }

  /** The prefix that marks a message as addressed to the bot. */
  function Mention(userId: string): (m: string)
    ensures |m| == |userId| + 3 && m[0] == '<' && m[1] == '@' && m[|m| - 1] == '>'
    ensures m[2..|m| - 1] == userId
  {
    "<@" + userId + ">"
  }

  /** The query of a text addressed to the bot: the rest after the mention,
      without surrounding spaces; `None` when the text does not start with
      the mention (matched exactly, upper and lower case distinct). */
  function ExtractQuery(userId: string, text: string): (q: Option<string>)
    ensures q.Some? <==> Mention(userId) <= text
    ensures q.Some? ==> NoSurroundingSpace(q.value) && |q.value| <= |text| - |Mention(userId)|
  {
    var mention := Mention(userId);
    if mention <= text then Some(TrimSpace(text[|mention|..])) else None
  }

  /** The reply task a decoded message starts, if any. */
  function DispatchOf(userId: string, msg: IncomingMessage): (d: Option<ReplyTask>)
    ensures d.Some? <==> msg.kind == "message" && Mention(userId) <= msg.text
    ensures d.Some? ==> d.value.channel == msg.channel
    ensures d.Some? ==> Some(d.value.query) == ExtractQuery(userId, msg.text)
  {
    if msg.kind == "message" then
      match ExtractQuery(userId, msg.text)
      case Some(query) => Some(ReplyTask(query, msg.channel))
      case None => None
    else None
  }

  /** The reply tasks started by the loop over `frames`, in order: frames are
      taken one by one until the first receive error, and nothing after it is
      looked at. */
  function Listen(userId: string, frames: seq<Receive>): (ds: seq<ReplyTask>)
    ensures |ds| <= |frames|
  {
    if frames == [] then []
    else match frames[0]
      case ReadFailed => []
      case Received(decoded) =>
        var rest := Listen(userId, frames[1..]);
        match DispatchOf(userId, MessageOf(decoded))
        case Some(d) => [d] + rest
        case None => rest
  }

  /** The `for` loop of `main`: reads frames in order, records the reply task
      each one starts, and breaks at the first receive error. `examined` is
      the number of frames decoded before the loop ended. */
  method ReadLoop(userId: string, frames: seq<Receive>) returns (dispatched: seq<ReplyTask>, examined: nat)
    ensures examined <= |frames|
    ensures forall k :: 0 <= k < examined ==> frames[k].Received?
    ensures examined < |frames| ==> frames[examined].ReadFailed?
    ensures dispatched == Listen(userId, frames)
  {
    dispatched, examined := [], 0;
    while examined < |frames|
      invariant examined <= |frames|
      invariant forall k :: 0 <= k < examined ==> frames[k].Received?
      invariant dispatched + Listen(userId, frames[examined..]) == Listen(userId, frames)
    {
      var frame := frames[examined];
      if frame.ReadFailed? {
        break;
      }
      ghost var rest := Listen(userId, frames[examined + 1..]);
      ListenStep(userId, frames, examined);
      var task := HandleMessage(userId, MessageOf(frame.decoded));
      if task.Some? {
        assert (dispatched + [task.value]) + rest == dispatched + ([task.value] + rest);
        dispatched := dispatched + [task.value];
      }
      examined := examined + 1;
    }
  }

  /** The body of the loop for one decoded message: the reply task it
      starts, if it is of type "message" and starts with the mention. */
  method HandleMessage(userId: string, msg: IncomingMessage) returns (task: Option<ReplyTask>)
    ensures task == DispatchOf(userId, msg)
  {
    task := None;
    if msg.kind == "message" {
      var mention := Mention(userId);
      if mention <= msg.text {
        var query := TrimSpace(msg.text[|mention|..]);
        task := Some(ReplyTask(query, msg.channel));
      }
    }
  }

  /** One step of the loop: a frame received without error contributes its
      reply task, if any, ahead of those of the frames after it. */
  lemma ListenStep(userId: string, frames: seq<Receive>, i: nat)
    requires i < |frames| && frames[i].Received?
    ensures var task := DispatchOf(userId, MessageOf(frames[i].decoded));
      Listen(userId, frames[i..])
        == (if task.Some? then [task.value] else []) + Listen(userId, frames[i + 1..])
  {
    assert frames[i..][0] == frames[i] && frames[i..][1..] == frames[i + 1..];
  }

  /** Round trip: a text made of the mention, spaces, a query without
      surrounding spaces and more spaces yields exactly that query. */
  lemma ExtractQueryOfMention(userId: string, a: string, query: string, b: string)
    requires AllSpace(a) && AllSpace(b) && NoSurroundingSpace(query)
    ensures ExtractQuery(userId, Mention(userId) + a + query + b) == Some(query)
  {
    var mention := Mention(userId);
    var text := mention + a + query + b;
    assert mention <= text;
    assert text[|mention|..] == a + query + b;
    TrimSpaceOfPadded(a, query, b);
  }

  /** The mention is stripped with the one space after it. */
  lemma ExtractQueryExample()
    ensures ExtractQuery("U123", "<@U123> Will it rain today?") == Some("Will it rain today?")
  {
    var query := "Will it rain today?";
    assert "<@U123> Will it rain today?" == Mention("U123") + " " + query + "";
    ExtractQueryOfMention("U123", " ", query, "");
  }

  /** A mention that is not at the start, or that differs in case, does not
      address the bot. */
  lemma ExtractQueryRejects()
    ensures ExtractQuery("U123", "hello <@U123> test") == None
    ensures ExtractQuery("U123", "<@u123> test") == None
  {
    assert Mention("U123")[0] != "hello <@U123> test"[0];
    assert Mention("U123")[2] != "<@u123> test"[2];
  }

  /** A frame whose message starts no reply task, a frame that did not
      decode among them, is skipped and the loop goes on with the next one. */
  lemma SkippedFrame(userId: string, decoded: Option<IncomingMessage>, rest: seq<Receive>)
    requires DispatchOf(userId, MessageOf(decoded)).None?
    ensures Listen(userId, [Received(decoded)] + rest) == Listen(userId, rest)
  {
    assert ([Received(decoded)] + rest)[1..] == rest;
  }

  /** Only a message of type "message" can start a reply task; a frame that
      did not decode never does. */
  lemma UndecodedFrameDispatchesNothing(userId: string)
    ensures DispatchOf(userId, MessageOf(None)).None?
  {
  }

  /** A lone frame addressed to the bot starts exactly its own task. */
  lemma ListenOneFrame(userId: string, msg: IncomingMessage, d: ReplyTask)
    requires DispatchOf(userId, msg) == Some(d)
    ensures Listen(userId, [Received(Some(msg))]) == [d]
  {
    var frames := [Received(Some(msg))];
    assert frames[0].decoded == Some(msg) && frames[1..] == [];
    assert Listen(userId, frames[1..]) == [];
  }

  /** A message of type "message" whose text is the mention, a space and a
      query starts one reply task, for that query on the message's channel. */
  lemma ListenMentionedQuery(userId: string, channel: string, query: string)
    requires NoSurroundingSpace(query)
    ensures Listen(userId, [Received(Some(IncomingMessage("message", "", channel, "", Mention(userId) + " " + query, "")))])
      == [ReplyTask(query, channel)]
  {
    var msg := IncomingMessage("message", "", channel, "", Mention(userId) + " " + query, "");
    assert msg.text == Mention(userId) + " " + query + "";
    ExtractQueryOfMention(userId, " ", query, "");
    ListenOneFrame(userId, msg, ReplyTask(query, channel));
  }

  /** Nothing after the first receive error is looked at: whatever follows
      it, the reply tasks started are the same. */
  lemma {:induction false} ListenStopsAtError(userId: string, pre: seq<Receive>, rest1: seq<Receive>, rest2: seq<Receive>)
    ensures Listen(userId, pre + [ReadFailed] + rest1) == Listen(userId, pre + [ReadFailed] + rest2)
  {
    if pre != [] {
      assert (pre + [ReadFailed] + rest1)[1..] == pre[1..] + [ReadFailed] + rest1;
      assert (pre + [ReadFailed] + rest2)[1..] == pre[1..] + [ReadFailed] + rest2;
      ListenStopsAtError(userId, pre[1..], rest1, rest2);
    } else {
      assert (pre + [ReadFailed] + rest1)[0] == ReadFailed;
      assert (pre + [ReadFailed] + rest2)[0] == ReadFailed;
    }
  }

  /** Frames are handled in order: the reply tasks of frames received
      without error come first, then those of what follows. */
  lemma {:induction false} ListenAppend(userId: string, pre: seq<Receive>, post: seq<Receive>)
    requires forall k :: 0 <= k < |pre| ==> pre[k].Received?
    ensures Listen(userId, pre + post) == Listen(userId, pre) + Listen(userId, post)
  {
    if pre != [] {
      assert (pre + post)[1..] == pre[1..] + post;
      ListenAppend(userId, pre[1..], post);
    } else {
      assert pre + post == post;
    }
  }

  /** Frame `k` and every frame before it were received without error, and
      frame `k` starts the reply task `d`. */
  predicate StartsTask(userId: string, frames: seq<Receive>, k: nat, d: ReplyTask) {
    k < |frames| && (forall j :: 0 <= j <= k ==> frames[j].Received?)
    && DispatchOf(userId, MessageOf(frames[k].decoded)) == Some(d)
  }

  /** Every reply task comes from a frame received before any error, whose
      message has type "message", starts with the mention, and names the
      task's channel. */
  lemma {:induction false} ListenSound(userId: string, frames: seq<Receive>, i: nat)
    requires i < |Listen(userId, frames)|
    ensures exists k: nat :: StartsTask(userId, frames, k, Listen(userId, frames)[i])
  {
    var f := frames[0];
    var ds := Listen(userId, frames);
    var rest := Listen(userId, frames[1..]);
    var d := DispatchOf(userId, MessageOf(f.decoded));
    assert ds == if d.Some? then [d.value] + rest else rest;
    if d.Some? && i == 0 {
      assert StartsTask(userId, frames, 0, ds[0]);
    } else {
      var i' := if d.Some? then i - 1 else i;
      assert rest[i'] == ds[i];
      ListenSound(userId, frames[1..], i');
      var k: nat :| StartsTask(userId, frames[1..], k, ds[i]);
      assert forall j :: 1 <= j <= k + 1 ==> frames[j] == frames[1..][j - 1];
      assert StartsTask(userId, frames, k + 1, ds[i]);
    }
  }

  /** Every frame received before any error whose message is addressed to
      the bot starts its reply task. */
  lemma {:induction false} ListenComplete(userId: string, frames: seq<Receive>, k: nat, d: ReplyTask)
    requires StartsTask(userId, frames, k, d)
    ensures d in Listen(userId, frames)
  {
    if k > 0 {
      assert frames[1..][k - 1] == frames[k];
      assert forall j :: 0 <= j <= k - 1 ==> frames[1..][j] == frames[j + 1];
      ListenComplete(userId, frames[1..], k - 1, d);
    }
  }

  /** Every query handed to a reply task has no surrounding spaces. */
  lemma ListenQueriesTrimmed(userId: string, frames: seq<Receive>, i: nat)
    requires i < |Listen(userId, frames)|
    ensures NoSurroundingSpace(Listen(userId, frames)[i].query)
  {
    ListenSound(userId, frames, i);
  }
}
