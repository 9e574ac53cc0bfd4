# Summariser bot: the `summarise` command and its share button

This project models the decision logic of a chat bot's `summarise` slash
command and the "Share to Channel" button attached to its private reply.
The bot is a Discord bot that summarises recent channel messages with a
language model.

**Command handler** (modules `Summarise`, `Transcript`, `Text`).
- It clamps the requested count to the range 1 to 100. The count defaults to 10.
- It reads that many messages of the channel's history, newest first.
- It keeps every message it read, and a `"display name: content"` line for
  each message whose author is not a bot.
- It reverses those lines into chronological order and joins them with line
  breaks.
- It then gives exactly one of four replies:
  - "No messages found in this channel.", when nothing was read;
  - "No user messages found to summarise. Found N bot messages.", when
    everything read came from bots;
  - a summary card, when the summariser returns text. Its title reports the
    number of human-authored messages. Its body is the summary. Its footer
    names the requester;
  - "❌ An error occurred while generating the summary: …", when reading the
    history raises, calling the summariser raises, or sending one of the
    other three replies raises (all of these sit inside one `try`).

The specification is the function `Summarise.Respond`. The imperative handler
`Summarise.HandleSummarise` follows main.py step by step: it reassigns the
count, appends to two lists in a loop, reverses one list, joins it and calls
the summariser. Its postcondition says it computes exactly what `Respond`
computes. The lemmas beside them state each outcome and its exact condition,
and that the outcomes exclude one another. They also say:
- the summariser is consulted exactly when a human-authored message was read;
- what the summariser receives is the fixed template around the
  chronological transcript;
- the list of kept lines has exactly one entry per human-authored message;
- the joined transcript has exactly one line per human-authored message,
  oldest first, when no display name or message content contains a line
  break. A message that spans several lines adds several lines to the
  transcript.

**Share button** (module `Share`, class `ShareSummaryView`).
- A successful click posts the summary card to the channel once. It sets the
  button's `disabled` flag and replaces the private card with a confirmation.
- A post that raises changes nothing except that the requester gets a private
  "❌ Failed to share summary: …" message.
- The handler never reads `disabled`. At most one post per button holds only
  because the platform stops delivering clicks to a button it shows as
  disabled, or to one whose 300-second timeout has passed. That guarantee is
  the precondition `Armed()` of `ShareSummary`.
- The flag is set before the private card is edited. If that edit raises after
  the post went out:
  - the requester is told the share failed;
  - the button is still shown enabled;
  - a second click posts again.
  
  `Share.FailedEditAllowsSecondPost` shows this sequence.

External collaborators become parameters:
- The channel history is a `Result<seq<Message>>`: the history newest-first,
  or the text of the exception that reading it raised.
- The summariser is a total function from a prompt to
  `Result<string>`. The model passes an empty text it returns through as the
  card's body, as main.py does. A reply the summariser cannot use counts as
  its `Failure` case.
- Each platform call that sends or edits a message is a `Delivery`
  parameter: delivered, or raised with a message. That covers the command's
  reply sent inside its `try` and the share button's post and edit.

## Model

| member | source | states |
|---|---|---|
| `Summarise.Respond` | main.py:71-118 | the reply and summariser prompt of one invocation, from the history read, the summariser's answer and how sending the reply ends; its properties are the outcome lemmas below |
| `Summarise.Retrieve` | main.py:76 | the history read: the `limit` newest messages of a newest-first channel, or all of them if fewer |
| `Summarise.Sent` | main.py:115-118 | the reply that reaches the requester: the intended reply, or the error reply when sending it raises |
| `Summarise.BotsOnlyText` | main.py:85 | "No user messages found to summarise. Found N bot messages." with N in decimal |
| `Summarise.ErrorText` | main.py:118 | "❌ An error occurred while generating the summary: " followed by the exception's text |
| `Summarise.PromptFor` | main.py:93-97 | the fixed instruction, two line breaks, the transcript, two line breaks and `Summary:` |
| `Summarise.TitleFor` | main.py:105 | "📝 Chat Summary (N messages)" with N in decimal |
| `Summarise.FooterFor` | main.py:109 | "Powered by Google Gemini • Summarised by " followed by the requester's display name |
| `Summarise.SummaryEmbed` | main.py:104-109 | the summary card: the title with the count, the summary as body, the footer naming the requester |
| `Transcript.Line` | main.py:79 | a message's line: display name, ": ", content |
| `Transcript.UserLines` | main.py:76-79 | the lines of the non-bot messages, in retrieval order |
| `Transcript.TranscriptText` | main.py:89-92 | the kept lines reversed and joined with line breaks |
| `Share.SharedEmbed` | main.py:26-30 | the confirmation card "✅ Summary Shared!" / "Your summary has been posted to the channel." with no footer |
| `Share.ShareFailureText` | main.py:37 | "❌ Failed to share summary: " followed by the exception's text |
| `Summarise.DefaultCountReads` | main.py:62 | a command invoked without a count reads the ten newest messages, or the whole channel if shorter |
| `Summarise.ClampCount` | main.py:66-69 | the count used is in [1, 100]; a count already in range is kept; below 1 gives 1; above 100 gives 100 |
| `Summarise.RetrievedBounds` | main.py:76 | the history read yields at most 100 messages, the newest ones, as many as the clamped count or the whole channel if shorter, and at least one when the channel is not empty |
| `Summarise.HandleSummarise` | main.py:62-118 | the step-by-step handler, clamping by reassignment and collecting both lists in a loop, returns exactly the reply and the summariser prompt that `Respond` specifies |
| `Transcript.UserLinesExact` | main.py:76-79 | the kept lines correspond one to one, in retrieval order, to the positions of the non-bot messages; a position is listed if and only if its message is not from a bot; their number is at most the number read |
| `Transcript.UserLinesEmpty` | main.py:81 | no line is kept if and only if every message read is from a bot |
| `Transcript.UserLinesAppend` | main.py:76-79 | filtering a history read in two parts is filtering each part and concatenating, which is what makes appending inside the loop correct |
| `Transcript.ReversedUserLines` | main.py:89 | reversing the kept lines gives the lines of the history read oldest first |
| `Transcript.TranscriptChronological` | main.py:89-92 | the joined transcript is the lines of the human-authored messages in chronological order, joined by line breaks |
| `Transcript.TranscriptLines` | main.py:79-92 | when no name or content holds a line break (the lemma's precondition), splitting the transcript at line breaks gives exactly one line per human-authored message, the oldest first |
| `Transcript.ChronologicalExample` | main.py:89-92 | history delivered as C, B, A gives the transcript "A: a\nB: b\nC: c" |
| `Text.SplitJoin` | main.py:92 | joining one or more break-free lines with a separator and splitting at that separator gives the lines back |
| `Text.ParseNatToString` | main.py:85 | the decimal rendering of a count in the bots-only reply reads back as that count |
| `Text.NatToStringInjective` | main.py:105 | distinct counts render as distinct texts |
| `Summarise.PromptRoundTrip` | main.py:93-97 | the prompt is the fixed instruction, the transcript and the fixed `Summary:` ending; dropping the template gives the transcript back unchanged |
| `Summarise.TitleInjective` | main.py:105 | distinct message counts give distinct card titles, so the title reports the count |
| `Summarise.OutcomesExclusive` | main.py:81-118 | no reply is at the same time the no-messages text, a bots-only text, an error text or a card |
| `Summarise.RespondHasOneOutcome` | main.py:81-118 | every invocation ends in exactly one of the four outcomes |
| `Summarise.NoMessagesOutcome` | main.py:81-83 | the reply is exactly "No messages found in this channel." if and only if the channel history was read and is empty and that reply's send succeeds; the summariser is not consulted for an empty history |
| `Summarise.BotsOnlyOutcome` | main.py:81-86 | the bots-only reply is given if and only if messages were read, all are from bots and the send succeeds; it reports the total number read, and the summariser is not consulted |
| `Summarise.SummariserConsulted` | main.py:81-100 | the summariser is consulted if and only if the history was read and holds a human-authored message; its prompt is the template around the chronological transcript |
| `Summarise.SummaryOutcome` | main.py:100-118 | with a human-authored message present, a returned summary whose send succeeds becomes a card titled with the number of human-authored messages, with the summary as body and the requester in the footer; an exception from the summariser or from the send becomes the error reply |
| `Summarise.ErrorOutcome` | main.py:71-118 | an error reply is given if and only if reading the history, the summariser, or sending the reply inside the `try` raised; it carries that exception's text and no card is sent |
| `Summarise.SummariserOnlyAtPrompt` | main.py:100-101 | the response depends on the summariser only through its answer to the prompt handed to it; when none is handed over, every summariser gives the same response |
| `Share.ShareSummaryView.constructor` | main.py:14-17 | a new control holds the summary, is armed, has posted nothing and shows the summary with an enabled button |
| `Share.ShareSummaryView.ShareSummary` | main.py:20-37 | a delivered post appends the summary to the channel and sets `disabled`; a delivered edit then shows the confirmation with a disabled button and leaves the control unarmed; a raised post changes nothing but adds the failure message; a raised edit adds the failure message and leaves the private card as it was; the invariant holds throughout |
| `Share.ShareSummaryView.Expire` | main.py:15 | after the timeout the control is no longer armed |
| `Share.ShareOnce` | main.py:20-34 | a successful share from a fresh control posts the summary exactly once and leaves nothing to click |
| `Share.FailedPostThenRetry` | main.py:21-37 | a failed post posts nothing and sends only the failure message; a later click can still share once |
| `Share.FailedEditAllowsSecondPost` | main.py:23-37 | when the confirmation edit raises, the requester is told the share failed, yet the summary was posted, and a second click posts it again |
| `Share.ExpiredIsInert` | main.py:15 | an expired control is not armed and has posted nothing |

## Left out

- Gateway connection, intents, command registration and syncing, start-up printing and `bot.run` (main.py:39-56, 120-127): these are platform plumbing over a client library.
- Loading `.env` and checking for the two credentials (main.py:8-11, 46, 121-125): this is environment I/O that happens before any command runs.
- The language-model call itself (main.py:47, 100-101): it is an opaque function from prompt to text or exception, including what `response.text` raises.
- Deferring the interaction, follow-ups and the ephemeral flags (main.py:63, 83, 85, 115, 118): these are asynchronous delivery mechanics. The model records which reply is sent, not how it is delivered.
- Embed colour, emoji on the button and other rendering (main.py:19, 26-30, 104-109): cards keep only title, description and footer.
- Timing of the 300-second timeout: expiry is an abstract `Expire` event with no clock.
- An exception part-way through reading the history: it yields the same single error reply as a history read that fails at once, so the history is one `Result`.
- A failure of the error or failure message itself (main.py:37, 118): these sends are outside any `try` and are assumed to reach the requester. A failure of the replies sent inside the `try` (main.py:83, 85, 115) is modelled.
- Concurrency between invocations: no state is shared between them.
- The direct, public-reply deployment variant of the command: main.py only has the private reply with a share button.
- `Share.ShareSummaryView.ShareSummary` requires the platform's guarantee `Armed()`: the source never checks `disabled`, so a click delivered to a disabled or expired control is outside the model.
