/** The `summarise` slash command (main.py:58-118): clamp the requested
    count, read that many messages of channel history newest-first, keep the
    human-authored ones as a chronological transcript, and either report an
    empty channel, report a bots-only channel, or hand a fixed-template
    prompt to the summariser and reply with a summary card. Any exception
    from the history read or the summariser becomes one error reply. */
module Summarise {
  import opened Wrappers
  import opened Text
  import opened Transcript

  /** The count used when the command is invoked without one (main.py:62). */
  const DefaultCount: int := 10
  const MinCount: int := 1
  const MaxCount: int := 100

  const NoMessagesText: string := "No messages found in this channel."
  const BotsOnlyPrefix: string := "No user messages found to summarise. Found "
  const ErrorPrefix: string := "❌ " + "An error occurred while generating the summary: "
  const PromptPrefix: string :=
    "Please provide a concise summary of the following Discord chat conversation. "
    + "Focus on the main topics discussed, key points made, and any important "
    + "decisions or conclusions reached:\n\n"
  const PromptSuffix: string := "\n\nSummary:"
  const FooterPrefix: string := "Powered by Google Gemini • Summarised by "

  /** The parts of a rich message card the model keeps (colour is dropped). */
  datatype Embed = Embed(title: string, description: string, footer: Option<string>)

  /** A message the bot sends back: plain text, or a card. */
  datatype Reply = Text(content: string) | Card(embed: Embed)

  /** What one invocation produces: its single reply, and the prompt it
      handed to the summariser, if it called the summariser at all. */
  datatype Response = Response(reply: Reply, asked: Option<string>)

  /** The count actually requested from the history (main.py:66-69). */
  function ClampCount(requested: int): (n: int)
    ensures MinCount <= n <= MaxCount
    ensures MinCount <= requested <= MaxCount ==> n == requested
    ensures requested < MinCount ==> n == MinCount
    ensures requested > MaxCount ==> n == MaxCount
  {
    if requested < MinCount then MinCount
    else if requested > MaxCount then MaxCount
    else requested
  }

  /** `channel.history(limit=n)`: the `n` most recent messages of a channel
      whose history is given newest-first, or all of them if there are fewer. */
  function Retrieve(channel: seq<Message>, limit: nat): seq<Message>
  {
    if limit < |channel| then channel[..limit] else channel
  }

  /** The messages a command invoked with `requested` reads. */
  function Retrieved(channel: seq<Message>, requested: int): seq<Message>
  {
    Retrieve(channel, ClampCount(requested))
  }

  function BotsOnlyText(found: nat): string
  {
    BotsOnlyPrefix + NatToString(found) + " bot messages."
  }

  function ErrorText(error: string): string
  {
    ErrorPrefix + error
  }

  /** The fixed template around the transcript (main.py:93-97). */
  function PromptFor(transcript: string): string
  {
    PromptPrefix + transcript + PromptSuffix
  }

  /** Recovers the transcript from a prompt by dropping the template. */
  function TranscriptOfPrompt(prompt: string): string
  {
    if |PromptPrefix| + |PromptSuffix| <= |prompt|
    then prompt[|PromptPrefix| .. |prompt| - |PromptSuffix|]
    else ""
  }

  function TitleFor(count: nat): string
  {
    "📝 Chat Summary (" + NatToString(count) + " messages)"
  }

  function FooterFor(requester: string): string
  {
    FooterPrefix + requester
  }

  /** The summary card sent back privately (main.py:104-109). */
  function SummaryEmbed(count: nat, summary: string, requester: string): Embed
  {
    Embed(TitleFor(count), summary, Some(FooterFor(requester)))
  }

  /** The reply that reaches the requester when `reply` is sent from inside
      the handler's `try` (main.py:83, 85, 115): the reply itself, or, when
      that send raises, the error reply of main.py:117-118. */
  function Sent(reply: Reply, send: Delivery): Reply
  {
    match send
    case Delivered => reply
    case Raised(e) => Text(ErrorText(e))
  }

  /** The whole decision of one invocation, given the channel's history (or
      the exception reading it raises), the summariser (a function from
      prompt to summary text or exception) and how sending the reply from
      inside the `try` ends. */
  function Respond(requested: int, requester: string, history: Result<seq<Message>>,
                   summariser: string -> Result<string>, send: Delivery): Response
  {
    match history
    case Failure(e) => Response(Text(ErrorText(e)), None)
    case Success(channel) =>
      var retrieved := Retrieved(channel, requested);
      var lines := UserLines(retrieved);
      if lines == [] then
        if |retrieved| == 0 then Response(Sent(Text(NoMessagesText), send), None)
        else Response(Sent(Text(BotsOnlyText(|retrieved|)), send), None)
      else
        var prompt := PromptFor(TranscriptText(retrieved));
        match summariser(prompt)
        case Failure(e) => Response(Text(ErrorText(e)), Some(prompt))
        case Success(summary) =>
          Response(Sent(Card(SummaryEmbed(|lines|, summary, requester)), send), Some(prompt))
  }

  /** The command handler, step by step as main.py:62-118 runs it. */
  method HandleSummarise(requested: int, requester: string, history: Result<seq<Message>>,
                         summariser: string -> Result<string>, send: Delivery)
    returns (reply: Reply, asked: Option<string>)
    ensures Response(reply, asked) == Respond(requested, requester, history, summariser, send)
  {
    var messages := requested;
    if messages < MinCount {
      messages := MinCount;
    } else if messages > MaxCount {
      messages := MaxCount;
    }
    asked := None;
    if history.Failure? {
      reply := Text(ErrorText(history.error));
      return;
    }
    var retrieved := Retrieve(history.value, messages);
    var channelMessages: seq<string> := [];
    var allMessages: seq<Message> := [];
    for i := 0 to |retrieved|
      invariant allMessages == retrieved[..i]
      invariant channelMessages == UserLines(retrieved[..i])
    {
      var message := retrieved[i];
      UserLinesAppend(retrieved[..i], [message]);
      assert retrieved[..i + 1] == retrieved[..i] + [message];
      allMessages := allMessages + [message];
      if !message.isBot {
        channelMessages := channelMessages + [Line(message)];
      }
    }
    assert retrieved[..|retrieved|] == retrieved;
    if channelMessages == [] {
      if |allMessages| == 0 {
        reply := Sent(Text(NoMessagesText), send);
      } else {
        reply := Sent(Text(BotsOnlyText(|allMessages|)), send);
      }
      return;
    }
    channelMessages := Reversed(channelMessages);
    var messagesText := Join(channelMessages, '\n');
    var prompt := PromptFor(messagesText);
    asked := Some(prompt);
    var response := summariser(prompt);
    match response {
      case Failure(e) =>
        reply := Text(ErrorText(e));
      case Success(summary) =>
        reply := Sent(Card(SummaryEmbed(|channelMessages|, summary, requester)), send);
    }
  }

  // ---------------------------------------------------------------------
  // Properties of the decision

  /** The history read asks for between one and a hundred messages and gets
      the newest of them. */
  lemma RetrievedBounds(channel: seq<Message>, requested: int)
    ensures |Retrieved(channel, requested)| <= MaxCount
    ensures |Retrieved(channel, requested)| == if ClampCount(requested) < |channel| then ClampCount(requested) else |channel|
    ensures Retrieved(channel, requested) == channel[..|Retrieved(channel, requested)|]
    ensures channel != [] ==> Retrieved(channel, requested) != []
  {
  }

  /** A command invoked without a count reads the ten newest messages, or
      the whole channel if it is shorter. */
  lemma DefaultCountReads(channel: seq<Message>)
    ensures |Retrieved(channel, DefaultCount)| == if |channel| < 10 then |channel| else 10
    ensures Retrieved(channel, DefaultCount) == channel[..|Retrieved(channel, DefaultCount)|]
  {
  }

  /** The template is undone by TranscriptOfPrompt: the prompt carries the
      transcript unaltered. */
  lemma PromptRoundTrip(transcript: string)
    ensures TranscriptOfPrompt(PromptFor(transcript)) == transcript
  {
  }

  /** Distinct counts give distinct titles: the title reports the count. */
  lemma TitleInjective(a: nat, b: nat)
    requires TitleFor(a) == TitleFor(b)
    ensures a == b
  {
    var pre := "📝 Chat Summary (";
    var sa, sb := NatToString(a), NatToString(b);
    assert |sa| == |sb|;
    assert sa == TitleFor(a)[|pre| .. |pre| + |sa|];
    assert sb == TitleFor(b)[|pre| .. |pre| + |sb|];
    NatToStringInjective(a, b);
  }

  // ---------------------------------------------------------------------
  // The four outcomes, each recognisable from the reply alone

  predicate IsNoMessages(r: Reply)
  {
    r == Text(NoMessagesText)
  }

  predicate IsBotsOnly(r: Reply)
  {
    r.Text? && StartsWith(r.content, BotsOnlyPrefix)
  }

  predicate IsSummary(r: Reply)
  {
    r.Card?
  }

  predicate IsError(r: Reply)
  {
    r.Text? && StartsWith(r.content, ErrorPrefix)
  }

  /** No reply is of two kinds: the fixed texts differ in their opening
      characters. */
  lemma OutcomesExclusive(r: Reply)
    ensures !(IsNoMessages(r) && IsBotsOnly(r))
    ensures !(IsNoMessages(r) && IsError(r))
    ensures !(IsBotsOnly(r) && IsError(r))
    ensures IsSummary(r) ==> !IsNoMessages(r) && !IsBotsOnly(r) && !IsError(r)
  {
    assert ErrorPrefix[0] == '❌';
    assert NoMessagesText[0] == 'N' && BotsOnlyPrefix[0] == 'N';
    if r.Text? {
      var c := r.content;
      if IsNoMessages(r) {
        assert c[3] == 'm' && BotsOnlyPrefix[3] == 'u' && c[0] != ErrorPrefix[0];
      } else if IsBotsOnly(r) {
        assert c[0] == BotsOnlyPrefix[0] != ErrorPrefix[0];
      }
    }
  }

  lemma BotsOnlyTextIs(found: nat)
    ensures IsBotsOnly(Text(BotsOnlyText(found)))
  {
    assert BotsOnlyText(found) == BotsOnlyPrefix + (NatToString(found) + " bot messages.");
  }

  lemma ErrorTextIs(error: string)
    ensures IsError(Text(ErrorText(error)))
  {
  }

  /** Every invocation ends in exactly one of the four outcomes. */
  lemma RespondHasOneOutcome(requested: int, requester: string, history: Result<seq<Message>>,
                             summariser: string -> Result<string>, send: Delivery)
    ensures var r := Respond(requested, requester, history, summariser, send).reply;
      IsNoMessages(r) || IsBotsOnly(r) || IsSummary(r) || IsError(r)
    ensures var r := Respond(requested, requester, history, summariser, send).reply;
      !(IsNoMessages(r) && IsBotsOnly(r)) && !(IsNoMessages(r) && IsError(r)) &&
      !(IsBotsOnly(r) && IsError(r)) && !(IsSummary(r) && (IsNoMessages(r) || IsBotsOnly(r) || IsError(r)))
  {
    var r := Respond(requested, requester, history, summariser, send).reply;
    OutcomesExclusive(r);
    if r.Text? && send.Delivered? {
      if history.Success? {
        var retrieved := Retrieved(history.value, requested);
        if UserLines(retrieved) == [] && |retrieved| != 0 {
          BotsOnlyTextIs(|retrieved|);
        }
      }
    }
  }

  /** "No messages found" is the reply exactly when the channel has no
      history at all and that reply is delivered; the summariser is then
      never consulted. */
  lemma NoMessagesOutcome(requested: int, requester: string, history: Result<seq<Message>>,
                          summariser: string -> Result<string>, send: Delivery)
    ensures var r := Respond(requested, requester, history, summariser, send);
      IsNoMessages(r.reply) <==> history == Success([]) && send.Delivered?
    ensures var r := Respond(requested, requester, history, summariser, send);
      history == Success([]) ==> r.asked == None
  {
  }

  /** The bots-only reply, which reports how many messages were read, is
      given exactly when messages were read, every one is from a bot and the
      reply is delivered; the summariser is then never consulted. */
  lemma BotsOnlyOutcome(requested: int, requester: string, channel: seq<Message>,
                        summariser: string -> Result<string>, send: Delivery)
    ensures var retrieved := Retrieved(channel, requested);
      var r := Respond(requested, requester, Success(channel), summariser, send);
      IsBotsOnly(r.reply) <==> retrieved != [] && (forall m :: m in retrieved ==> m.isBot) && send.Delivered?
    ensures var retrieved := Retrieved(channel, requested);
      var r := Respond(requested, requester, Success(channel), summariser, send);
      IsBotsOnly(r.reply) ==> r == Response(Text(BotsOnlyText(|retrieved|)), None)
  {
    var retrieved := Retrieved(channel, requested);
    var r := Respond(requested, requester, Success(channel), summariser, send);
    OutcomesExclusive(r.reply);
    UserLinesEmpty(retrieved);
    if send.Raised? {
      ErrorTextIs(send.error);
    }
    if UserLines(retrieved) == [] {
      if |retrieved| != 0 {
        BotsOnlyTextIs(|retrieved|);
      }
    } else {
      var prompt := PromptFor(TranscriptText(retrieved));
      if summariser(prompt).Failure? {
        ErrorTextIs(summariser(prompt).error);
      }
    }
  }

  /** The summariser is consulted exactly when the history was read and
      holds a human-authored message, and what it is given is the template
      around the chronological transcript. */
  lemma SummariserConsulted(requested: int, requester: string, history: Result<seq<Message>>,
                            summariser: string -> Result<string>, send: Delivery)
    ensures var r := Respond(requested, requester, history, summariser, send);
      r.asked.Some? <==> history.Success? && exists m :: m in Retrieved(history.value, requested) && !m.isBot
    ensures var r := Respond(requested, requester, history, summariser, send);
      r.asked.Some? ==>
        r.asked.value == PromptFor(Join(UserLines(Reversed(Retrieved(history.value, requested))), '\n'))
  {
    if history.Success? {
      var retrieved := Retrieved(history.value, requested);
      UserLinesEmpty(retrieved);
      TranscriptChronological(retrieved);
    }
  }

  /** With human-authored messages present, a summary from the summariser
      becomes a card whose title reports the number of human-authored
      messages and whose body is the summary, provided sending it succeeds;
      an exception from the summariser or from that send becomes the error
      reply. */
  lemma SummaryOutcome(requested: int, requester: string, channel: seq<Message>,
                       summariser: string -> Result<string>, send: Delivery)
    requires exists m :: m in Retrieved(channel, requested) && !m.isBot
    ensures var retrieved := Retrieved(channel, requested);
      var prompt := PromptFor(TranscriptText(retrieved));
      var r := Respond(requested, requester, Success(channel), summariser, send);
      r.asked == Some(prompt) &&
      match summariser(prompt)
      case Success(summary) =>
        (match send
         case Delivered =>
           r.reply == Card(Embed(TitleFor(UserCount(retrieved)), summary, Some(FooterFor(requester))))
         case Raised(e) => r.reply == Text(ErrorText(e)))
      case Failure(e) => r.reply == Text(ErrorText(e))
  {
    var retrieved := Retrieved(channel, requested);
    UserLinesEmpty(retrieved);
    UserLinesExact(retrieved);
  }

  /** An error reply is given exactly when reading the history raised, the
      summariser raised, or sending the reply from inside the `try` raised;
      it carries that exception's text, and no summary card is sent. */
  lemma ErrorOutcome(requested: int, requester: string, history: Result<seq<Message>>,
                     summariser: string -> Result<string>, send: Delivery)
    ensures var r := Respond(requested, requester, history, summariser, send);
      IsError(r.reply) <==>
        history.Failure? || (r.asked.Some? && summariser(r.asked.value).Failure?) || send.Raised?
    ensures var r := Respond(requested, requester, history, summariser, send);
      history.Failure? ==> r.reply == Text(ErrorText(history.error))
    ensures var r := Respond(requested, requester, history, summariser, send);
      r.asked.Some? && summariser(r.asked.value).Failure? ==>
        r.reply == Text(ErrorText(summariser(r.asked.value).error))
    ensures var r := Respond(requested, requester, history, summariser, send);
      history.Success? && !(r.asked.Some? && summariser(r.asked.value).Failure?) && send.Raised? ==>
        r.reply == Text(ErrorText(send.error))
  {
    var r := Respond(requested, requester, history, summariser, send);
    OutcomesExclusive(r.reply);
    if send.Raised? {
      ErrorTextIs(send.error);
    }
    match history
    case Failure(e) =>
      ErrorTextIs(e);
    case Success(channel) =>
      var retrieved := Retrieved(channel, requested);
      if UserLines(retrieved) == [] {
        if |retrieved| != 0 {
          BotsOnlyTextIs(|retrieved|);
        }
      } else {
        var prompt := PromptFor(TranscriptText(retrieved));
        if summariser(prompt).Failure? {
          ErrorTextIs(summariser(prompt).error);
        }
      }
  }

  /** The response depends on the summariser only through its answer to the
      prompt actually handed to it; when nothing is handed over, any
      summariser gives the same response. */
  lemma SummariserOnlyAtPrompt(requested: int, requester: string, history: Result<seq<Message>>,
                               s1: string -> Result<string>, s2: string -> Result<string>, send: Delivery)
    requires Respond(requested, requester, history, s1, send).asked.Some? ==>
               s1(Respond(requested, requester, history, s1, send).asked.value)
                 == s2(Respond(requested, requester, history, s1, send).asked.value)
    ensures Respond(requested, requester, history, s1, send) == Respond(requested, requester, history, s2, send)
  {
  }
}
