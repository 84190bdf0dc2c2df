# Magic 8-ball Slack bot — verified model of the dispatch and reply logic

The bot connects to Slack's real-time messaging API, reads frames from a
WebSocket, and answers every message that starts with an @-mention of itself
with one canned reply. This project models the sequential logic inside that
plumbing, all of it in `8ball.go`:

- **Mention extraction and dispatch** (module `Dispatch`). A decoded inbound
  message starts a reply task only when its type is `"message"` and its text
  starts with the exact prefix `"<@" + userId + ">"`. The query is the rest of
  the text with surrounding white space trimmed. The read loop of `main` is
  the method `ReadLoop`. It walks a sequence of receive results, records the
  `ReplyTask(query, channel)` each frame starts, and stops at the first
  receive error. The function `Listen` specifies it.
- **Reply classification** (module `Reply`). `postReply` checks three cases in
  order. A query that does not end in `?` gets "Where's the question?". A
  query whose lower-cased form starts with `who|what|when|where|why|how|if`
  gets the tarot text. There is no word boundary, so "Whole ...?" and
  "However ...?" land there too. Anything else gets an entry of the response
  table.
- **Response table** (module `Responses`). These are the twenty canned
  answers. The random draw is a parameter `r: nat`, and the answer is entry
  `r % 20`.
- **Outgoing messages and the id counter** (module `Outbox`). Class `Session`
  holds `idCounter`. `GenerateResponse` bumps it by one and builds a message
  of type `"message"` with the new value as its id. `PostReply` sends exactly
  one such message. A ghost field records every id handed out. Its invariant
  makes the ids 1, 2, 3, … in order, so they are strictly increasing and
  pairwise distinct.
- **String helpers** (module `Strings`). These model Go's `strings.TrimSpace`,
  with the exact `unicode.IsSpace` set, and `strings.ToLower`, as far as it
  matters for the interrogative test.

Two points where the model follows what the code does:

- A frame is not skipped because its decode failed. The code ignores the
  error of `json.Unmarshal` (8ball.go:133) and tests whatever the message
  value holds afterwards. When the bytes are not well-formed JSON, that is
  the zero value, whose type is empty, so the frame starts no reply task;
  the model writes this as `Received(None)`. When the JSON is well-formed but
  a field has the wrong type (say `"channel": 1`), the other fields are still
  filled, the type can be `"message"`, and the frame is dispatched; the model
  covers this as `Received(Some(m))` with whatever fields were decoded.
- The code never checks that the bot's user id is non-empty
  (8ball.go:105), so the model accepts any `userId`, the empty one included.

## Model

| member | source | states |
|---|---|---|
| `Strings.IsSpace` | 8ball.go:141 | the spaces `strings.TrimSpace` cuts are Go's `unicode.IsSpace` set: '\t' to '\r', ' ', U+0085, U+00A0, U+1680, U+2000 to U+200A, U+2028, U+2029, U+202F, U+205F, U+3000; among ASCII only '\t' to '\r' and ' ' |
| `Strings.SkipSpaces` | 8ball.go:141 | the leading-space scan stops at the first non-space, with only spaces before it |
| `Strings.SkipSpacesBack` | 8ball.go:141 | the trailing-space scan stops just after the last non-space, with only spaces after it |
| `Strings.LeadingSpaces` | 8ball.go:141 | the number of characters cut from the front, all of them spaces |
| `Strings.TrimSpace` | 8ball.go:141 | the trimmed query is an infix of the text with no surrounding space, and only spaces lie before and after it |
| `Strings.TrimSpaceOfPadded` | 8ball.go:141 | any text without surrounding space, padded with spaces on both sides, trims back to itself (trimming is uniquely determined) |
| `Strings.SkipSpacesOver` | 8ball.go:141 | skipping forward over a run of spaces lands exactly at the run's end |
| `Strings.SkipSpacesBackOver` | 8ball.go:141 | skipping back from the end over trailing spaces lands exactly at their start |
| `Strings.SkipSpacesBackFrom` | 8ball.go:141 | skipping back from any position over a run of spaces lands exactly at the run's start |
| `Strings.TrimSpaceIdempotent` | 8ball.go:141 | trimming twice equals trimming once |
| `Strings.LowerChar` | 8ball.go:154 | lower-casing a code point never yields an ASCII capital |
| `Strings.LowerCharToAsciiLetter` | 8ball.go:154 | a code point lowers to an ASCII letter x iff it is x, X, or (for i and k) the capital I with dot above or the Kelvin sign |
| `Strings.ToLower` | 8ball.go:154 | lower-casing keeps the length and lowers each code point in place |
| `Strings.ToLowerIdempotent` | 8ball.go:154 | lower-casing twice equals lower-casing once |
| `Responses.Answer` | 8ball.go:164 | the chosen answer is always an entry of the table, namely entry `r % 20` |
| `Responses.EntriesDistinct` | 8ball.go:57-78 | the twenty canned answers are pairwise different texts |
| `Responses.AnswerIsEntryIff` | 8ball.go:164 | draw `r` selects entry `i` iff `r % 20 == i`, so each entry is chosen by one residue class |
| `Reply.EndsWithQuestionMark` | 8ball.go:149 | `strings.HasSuffix(query, "?")`: the query is non-empty and its last character is `?` |
| `Reply.MatchesInterrogative` | 8ball.go:154 | the anchored pattern (alternatives who, what, when, where, why, how, if, then `.*`) matches a string iff one of the seven words is a prefix of it, with no word boundary; a match needs at least two characters starting with w, h or i |
| `Reply.IsOpenEnded` | 8ball.go:154 | the pattern is applied to `strings.ToLower(query)`; an open-ended query has at least two characters |
| `Reply.Classify` | 8ball.go:148-161 | missing `?` iff the query does not end in `?`; open-ended iff it ends in `?` and the lowered query starts with an interrogative; yes/no otherwise |
| `Reply.ReplyText` | 8ball.go:148-167 | the reply is "Where's the question?" iff there is no trailing `?`, the tarot text iff the question is open-ended, and a table entry (entry `r % 20`) iff it is a yes/no question |
| `Reply.IsOpenEndedIff` | 8ball.go:154 | the pattern on the lowered query matches iff the query's first characters lower-case one by one to an interrogative |
| `Reply.ClassifyIgnoresCase` | 8ball.go:149-161 | a query and its lower-cased form are classified alike (same question-mark test, same pattern outcome) |
| `Reply.OpenEndedExtends` | 8ball.go:154 | `.*` accepts any rest: appending text to an open-ended query keeps it open-ended |
| `Reply.OpenEndedByPrefix` | 8ball.go:154 | a query whose first characters lower-case to an interrogative is open-ended |
| `Reply.NoWordBoundary` | 8ball.go:154 | "Whole lot of trouble?" gets the tarot reply, because there is no word boundary after "who" |
| `Reply.NoWordBoundaryAfterHow` | 8ball.go:154 | "However will it rain?" gets the tarot reply, because there is no word boundary after "how" |
| `Reply.YesNoExample` | 8ball.go:148-165 | "Will it rain today?" is a yes/no question and is answered from the table |
| `Reply.MissingQuestionMarkExample` | 8ball.go:149-151 | "Why is the sky blue" without `?` gets the reminder even though it starts with an interrogative |
| `Reply.OpenEndedExample` | 8ball.go:154-160 | "why is the sky blue?" is open-ended |
| `Dispatch.MessageOf` | 8ball.go:132-133 | a frame that did not decode leaves a message whose type is empty |
| `Dispatch.Mention` | 8ball.go:138 | the mention is `<@`, the user id, then `>` |
| `Dispatch.ExtractQuery` | 8ball.go:138-141 | a query exists iff the text starts with the exact mention; the query has no surrounding space and is no longer than the text after the mention |
| `Dispatch.DispatchOf` | 8ball.go:135-143 | a message starts a task iff its type is `"message"` and its text starts with the mention; the task carries the message's channel and the extracted query |
| `Dispatch.Listen` | 8ball.go:125-145 | the loop starts at most one task per frame |
| `Dispatch.ReadLoop` | 8ball.go:125-145 | the loop reads frames in order, examines exactly those before the first receive error, and records exactly the tasks `Listen` specifies |
| `Dispatch.HandleMessage` | 8ball.go:135-143 | the loop body for one decoded message starts exactly the task `DispatchOf` specifies: one iff the type is "message" and the text starts with the mention |
| `Dispatch.ListenStep` | 8ball.go:125-145 | one loop step: a frame received without error contributes its task ahead of the tasks of the later frames |
| `Dispatch.ExtractQueryOfMention` | 8ball.go:138-141 | round trip: mention, spaces, a trimmed query and spaces yield exactly that query |
| `Dispatch.ExtractQueryExample` | 8ball.go:138-141 | "<@U123> Will it rain today?" to bot U123 yields the query "Will it rain today?" |
| `Dispatch.ExtractQueryRejects` | 8ball.go:139 | a mention not at the start, or with a different case, yields no query |
| `Dispatch.SkippedFrame` | 8ball.go:132-135 | a frame that starts no task, a frame that did not decode among them, is skipped and the loop goes on with the next frame |
| `Dispatch.UndecodedFrameDispatchesNothing` | 8ball.go:132-135 | a frame that did not decode starts no task |
| `Dispatch.ListenOneFrame` | 8ball.go:135-143 | a lone addressed frame starts exactly its own task |
| `Dispatch.ListenMentionedQuery` | 8ball.go:135-143 | a message of type "message" with text mention + space + query starts exactly one task, for that query on its channel |
| `Dispatch.ListenStopsAtError` | 8ball.go:125-130 | the frames after the first receive error never change the tasks started |
| `Dispatch.ListenAppend` | 8ball.go:125-145 | the tasks of frames received without error come first, in order, then those of the frames that follow |
| `Dispatch.ListenSound` | 8ball.go:125-143 | every task comes from an addressed message in a frame received before any error |
| `Dispatch.ListenComplete` | 8ball.go:125-143 | every addressed message in a frame received before any error starts its task |
| `Dispatch.ListenQueriesTrimmed` | 8ball.go:140-142 | every dispatched query has no surrounding space |
| `Outbox.IdsUpTo` | 8ball.go:170 | after n messages the ids handed out are exactly 1, …, n in order |
| `Outbox.IdsIncreasing` | 8ball.go:170 | ids are strictly increasing and so pairwise distinct; each new id exceeds all earlier ones; the first id is 1 |
| `Outbox.EndToEndExample` | 8ball.go:125-165 | "<@U1> why is the sky blue?" on channel C1 starts one task on C1, and its reply is the tarot text |
| `Outbox.Session.constructor` | 8ball.go:53 | the counter starts at 0 with no ids handed out |
| `Outbox.Session.GenerateResponse` | 8ball.go:169-176 | the counter goes up by exactly 1; the message has the new count as id, type "message", and the given channel and text; the new id exceeds every earlier one |
| `Outbox.Session.PostReply` | 8ball.go:148-167 | exactly one message is built: the counter goes up by 1, and the message goes to the query's channel with the text `ReplyText` specifies |

## Left out

- The `rtm.start` HTTP handshake, reading its body, and the `ok`/error checks (8ball.go:85-106) are network I/O, and their failures end the process through `log.Fatal`. The bot's user id is a parameter instead.
- The WebSocket dial, read, write and close (8ball.go:108-122, 126, 182) are library calls. Receive results are an abstract input sequence, and `GenerateResponse` returns the message it would write.
- JSON decoding and encoding (8ball.go:99, 133, 178) are library calls. The decoded inbound message is an abstract record. The marshal-failure branch (8ball.go:179-181) cannot fire for this struct.
- Goroutines (8ball.go:142) and the atomicity of `atomic.AddUint64` (8ball.go:170) are left out. `ReadLoop` returns the reply tasks instead of spawning them, and the counter is updated one call at a time.
- Outbox.Session.GenerateResponse: does not model the uint64 wrap-around of the counter, because it cannot be reached within a process lifetime. The counter is a `nat`.
- Responses.Answer: the uniformity of `rand.Int()` (8ball.go:164) is not stated. The draw is an arbitrary `nat`. `Responses.AnswerIsEntryIff` shows that each entry is picked by exactly one residue class.
- The regex error branch (8ball.go:155-157) is unreachable because the pattern is a valid constant.
- Strings.ToLower: maps only 'A'–'Z', U+0130 and U+212A. Every other code point stays unchanged. Apart from 'A'–'Z', U+0130 and U+212A are the only code points that Go's `unicode.ToLower` maps to an ASCII character other than themselves, and the pattern only looks for ASCII letters, so the classification matches Go's for every query. The lowered string itself may differ from Go's outside ASCII.
- Strings are sequences of Unicode code points. Go's byte-level handling of invalid UTF-8 is not modelled.
- Checking `os.Args` (8ball.go:81-83) and all logging are left out.
