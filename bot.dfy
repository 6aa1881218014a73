/**
 * `Bot.onUpdateReceived`: an incoming update with a text message is
 * answered by the command-service calls its lower-cased text selects, each
 * reply handed to `execute` in order. A `TelegramApiException` from
 * `execute` stops the remaining sends and is logged once.
 *
 * Sending is appending to `outbox`. Whether and where a send fails is not
 * decided by the program; it is a parameter: `SendFailure(attempt, reason)`
 * says that the `attempt`-th `execute` call of this update (counting from 0)
 * throws with message `reason`.
 */
module BotDispatch {
  import opened Basics
  import opened Text
  import opened Messages
  import opened Commands

  /** The parts of a Telegram `Message` the bot reads: the chat id and the text, if any. */
  datatype Message = Message(chatId: int, text: Option<string>)

  datatype Update = Update(message: Option<Message>)

  datatype SendFailure = SendFailure(attempt: nat, reason: string)

  /** One call on the command service. */
  datatype Call = StartCommandCall | GetHelpCall | HandleUserResponseCall(text: string) | ShowTravelOptionsCall

  const StartKey := "/start"
  const HelpKey := "/help"

  const SendErrorPrefix := "Ошибка при отправке сообщения: "

  /** The `switch` on `messageText.toLowerCase()`: the calls made, in order. */
  function Dispatch(text: string): (calls: seq<Call>)
    ensures 1 <= |calls| <= 2
  {
    var key := Lower(text);
    if key == StartKey then [StartCommandCall]
    else if key == HelpKey then [GetHelpCall]
    else if key == Yes then [HandleUserResponseCall(text), ShowTravelOptionsCall]
    else [HandleUserResponseCall(text)]
  }

  /** The reply a call returns for the chat. */
  function Reply(call: Call, chatId: string): SendMessage {
    match call
    case StartCommandCall => StartReply(chatId)
    case GetHelpCall => GetHelp(chatId)
    case HandleUserResponseCall(text) => HandleUserResponse(chatId, text)
    case ShowTravelOptionsCall => TravelReply(chatId)
  }

  function Replies(calls: seq<Call>, chatId: string): (ms: seq<SendMessage>)
    ensures |ms| == |calls| && forall i :: 0 <= i < |calls| ==> ms[i] == Reply(calls[i], chatId)
  {
    seq(|calls|, i requires 0 <= i < |calls| => Reply(calls[i], chatId))
  }

  /** What a call writes to the service's logger. */
  function CallLog(call: Call, chatId: string): seq<LogEntry> {
    match call
    case StartCommandCall => [Info(StartCommandLog(chatId))]
    case ShowTravelOptionsCall => [Info(TravelOptionsLog(chatId))]
    case _ => []
  }

  function CallsLog(calls: seq<Call>, chatId: string): seq<LogEntry>
    decreases |calls|
  {
    if calls == [] then [] else CallsLog(calls[..|calls| - 1], chatId) + CallLog(calls[|calls| - 1], chatId)
  }

  /** `Message.hasText()`: the message carries a text that is not empty. */
  predicate HasText(m: Message) {
    m.text.Some? && m.text.value != ""
  }

  /** The text of a message the bot reacts to; `None` for an update it ignores. */
  function TextOf(update: Update): (text: Option<string>)
    ensures text.Some? <==> update.message.Some? && HasText(update.message.value)
    ensures text.Some? ==> text == update.message.value.text && text.value != ""
  {
    if update.message.Some? && HasText(update.message.value) then update.message.value.text else None
  }

  /** The calls an update triggers: none when it carries no text. */
  function Calls(update: Update): seq<Call> {
    match TextOf(update)
    case None => []
    case Some(text) => Dispatch(text)
  }

  function ChatIdOf(update: Update): string
    requires update.message.Some?
  {
    DecimalString(update.message.value.chatId)
  }

  /** How many `execute` calls return normally: all of them, or those before the failing one. */
  function Delivered(update: Update, failure: Option<SendFailure>): nat {
    var n := |Calls(update)|;
    if failure.Some? && failure.value.attempt < n then failure.value.attempt else n
  }

  /** Whether an `execute` call throws during this update. */
  predicate Fails(update: Update, failure: Option<SendFailure>) {
    failure.Some? && failure.value.attempt < |Calls(update)|
  }

  /** The calls made: every call up to and including the one whose send throws. */
  function Invoked(update: Update, failure: Option<SendFailure>): seq<Call> {
    var calls := Calls(update);
    if Fails(update, failure) then calls[..Delivered(update, failure) + 1] else calls
  }

  /** The messages sent for an update. */
  function Sent(update: Update, failure: Option<SendFailure>): seq<SendMessage> {
    if TextOf(update).None? then []
    else Replies(Calls(update)[..Delivered(update, failure)], ChatIdOf(update))
  }

  /** What the service's logger receives for an update. */
  function ServiceLog(update: Update, failure: Option<SendFailure>): seq<LogEntry> {
    if TextOf(update).None? then [] else CallsLog(Invoked(update, failure), ChatIdOf(update))
  }

  /** What the bot's own logger receives: one error line when a send throws. */
  function BotLog(update: Update, failure: Option<SendFailure>): seq<LogEntry> {
    if Fails(update, failure) then [Error(SendErrorPrefix + failure.value.reason)] else []
  }

  /** An update that triggers one call: it is sent unless the first send throws, and it is logged either way. */
  lemma OneCallOutcome(update: Update, failure: Option<SendFailure>, call: Call)
    requires TextOf(update).Some? && Calls(update) == [call]
    ensures var chatId := ChatIdOf(update);
      && (Fails(update, failure) <==> failure.Some? && failure.value.attempt == 0)
      && Sent(update, failure) == (if Fails(update, failure) then [] else [Reply(call, chatId)])
      && ServiceLog(update, failure) == CallLog(call, chatId)
  {
    var calls := Calls(update);
    assert calls[..0] == [] && calls[..1] == calls;
    assert CallsLog(calls, ChatIdOf(update)) == CallsLog([], ChatIdOf(update)) + CallLog(call, ChatIdOf(update));
  }

  /**
   * An update that triggers two calls: the sends before the failing one go
   * out, and the second call is made only when the first send succeeds.
   */
  lemma TwoCallsOutcome(update: Update, failure: Option<SendFailure>)
    requires TextOf(update).Some? && |Calls(update)| == 2
    ensures var calls, chatId := Calls(update), ChatIdOf(update);
      var first := failure.Some? && failure.value.attempt == 0;
      var second := failure.Some? && failure.value.attempt == 1;
      && (Fails(update, failure) <==> first || second)
      && Sent(update, failure) ==
           (if first then [] else if second then [Reply(calls[0], chatId)] else [Reply(calls[0], chatId), Reply(calls[1], chatId)])
      && ServiceLog(update, failure) ==
           (if first then CallLog(calls[0], chatId) else CallLog(calls[0], chatId) + CallLog(calls[1], chatId))
  {
    var calls, chatId := Calls(update), ChatIdOf(update);
    TwoCallPrefixes(calls, chatId);
    if failure.Some? && failure.value.attempt == 0 {
      assert Delivered(update, failure) == 0 && Invoked(update, failure) == calls[..1];
    } else if failure.Some? && failure.value.attempt == 1 {
      assert Delivered(update, failure) == 1 && Invoked(update, failure) == calls[..2];
    } else {
      assert Delivered(update, failure) == 2 && Invoked(update, failure) == calls;
      assert calls[..2] == calls;
    }
  }

  /** The replies and log lines of the prefixes of a two-call sequence. */
  lemma TwoCallPrefixes(calls: seq<Call>, chatId: string)
    requires |calls| == 2
    ensures Replies(calls[..0], chatId) == []
    ensures Replies(calls[..1], chatId) == [Reply(calls[0], chatId)]
    ensures Replies(calls[..2], chatId) == [Reply(calls[0], chatId), Reply(calls[1], chatId)]
    ensures CallsLog(calls[..1], chatId) == CallLog(calls[0], chatId)
    ensures CallsLog(calls[..2], chatId) == CallLog(calls[0], chatId) + CallLog(calls[1], chatId)
  {
    assert calls[..2][..1] == calls[..1];
    assert calls[..1][..0] == [];
  }

  /** Every reply is addressed to the chat it was built for. */
  lemma ReplyAddressed(call: Call, chatId: string)
    ensures Reply(call, chatId).chatId == chatId
  {
    if call == ShowTravelOptionsCall {
      TravelReplyShape(chatId);
    }
  }

  /**
   * Every message sent for an update goes to the update's chat, rendered by
   * `Long.toString`; updates from different chats are answered in different
   * chats.
   */
  lemma SentToOwnChat(update: Update, failure: Option<SendFailure>, other: Update, otherFailure: Option<SendFailure>)
    requires TextOf(update).Some? && TextOf(other).Some?
    ensures forall m :: m in Sent(update, failure) ==> m.chatId == DecimalString(update.message.value.chatId)
    ensures (forall m, m' :: m in Sent(update, failure) && m' in Sent(other, otherFailure) ==>
               (m.chatId == m'.chatId <==> update.message.value.chatId == other.message.value.chatId))
  {
    forall u, f, m | m in Sent(u, f)
      ensures u.message.Some? && m.chatId == DecimalString(u.message.value.chatId)
    {
      var calls := Calls(u)[..Delivered(u, f)];
      var i :| 0 <= i < |calls| && Replies(calls, ChatIdOf(u))[i] == m;
      ReplyAddressed(calls[i], ChatIdOf(u));
    }
    DecimalStringInjective(update.message.value.chatId, other.message.value.chatId);
  }

  /**
   * An update without a message, or whose message has no text or an empty
   * text, sends nothing and logs nothing.
   */
  lemma IgnoredUpdate(update: Update, failure: Option<SendFailure>)
    requires update.message.None? || update.message.value.text.None? || update.message.value.text.value == ""
    ensures Sent(update, failure) == [] && ServiceLog(update, failure) == [] && BotLog(update, failure) == []
  {
  }

  /** With no failing send, every reply of the selected calls goes out, in order. */
  lemma AllRepliesSent(update: Update, failure: Option<SendFailure>)
    requires TextOf(update).Some? && !Fails(update, failure)
    ensures Sent(update, failure) == Replies(Dispatch(TextOf(update).value), ChatIdOf(update))
  {
    var calls := Calls(update);
    assert calls[..|calls|] == calls;
  }

  /** "/start" in any case sends exactly the greeting. */
  lemma StartSendsGreeting(update: Update, failure: Option<SendFailure>)
    requires TextOf(update).Some? && Lower(TextOf(update).value) == StartKey && !Fails(update, failure)
    ensures Sent(update, failure) == [StartReply(ChatIdOf(update))]
  {
    AllRepliesSent(update, failure);
  }

  /** "/help" in any case sends exactly the command list. */
  lemma HelpSendsCommandList(update: Update, failure: Option<SendFailure>)
    requires TextOf(update).Some? && Lower(TextOf(update).value) == HelpKey && !Fails(update, failure)
    ensures Sent(update, failure) == [GetHelp(ChatIdOf(update))]
  {
    AllRepliesSent(update, failure);
  }

  /** "да" in any case sends the positive answer, then the travel options. */
  lemma YesSendsAnswerThenOptions(update: Update, failure: Option<SendFailure>)
    requires TextOf(update).Some? && Lower(TextOf(update).value) == Yes && !Fails(update, failure)
    ensures var sent := Sent(update, failure);
      && |sent| == 2
      && sent[0] == HandleUserResponse(ChatIdOf(update), TextOf(update).value)
      && sent[0].text == PositiveText
      && sent[1] == TravelReply(ChatIdOf(update))
  {
    AllRepliesSent(update, failure);
    HandleUserResponseByLower(ChatIdOf(update), TextOf(update).value);
  }

  /**
   * Any other text is answered once by `handleUserResponse` with the text as
   * the user wrote it; that answer is never the positive one, and it is the
   * refusal exactly when the text is "нет" in some case.
   */
  lemma OtherTextAnsweredOnce(update: Update, failure: Option<SendFailure>)
    requires TextOf(update).Some? && !Fails(update, failure)
    requires var key := Lower(TextOf(update).value); key != StartKey && key != HelpKey && key != Yes
    ensures var sent := Sent(update, failure);
      && sent == [HandleUserResponse(ChatIdOf(update), TextOf(update).value)]
      && sent[0].text != PositiveText
      && (sent[0].text == RefusalText <==> Lower(TextOf(update).value) == No)
  {
    AllRepliesSent(update, failure);
    HandleUserResponseByLower(ChatIdOf(update), TextOf(update).value);
  }

  /** Texts with the same lower-case form get the same replies. */
  lemma DispatchCaseBlind(a: string, b: string, chatId: string)
    requires Lower(a) == Lower(b)
    ensures Replies(Dispatch(a), chatId) == Replies(Dispatch(b), chatId)
  {
    HandleUserResponseCaseBlind(chatId, a, b);
    var ca, cb := Dispatch(a), Dispatch(b);
    assert Reply(HandleUserResponseCall(a), chatId) == Reply(HandleUserResponseCall(b), chatId);
    assert |ca| == |cb| && forall i :: 0 <= i < |ca| ==> Reply(ca[i], chatId) == Reply(cb[i], chatId);
    RepliesAgree(ca, cb, chatId);
  }

  lemma RepliesAgree(c1: seq<Call>, c2: seq<Call>, chatId: string)
    requires |c1| == |c2| && forall i :: 0 <= i < |c1| ==> Reply(c1[i], chatId) == Reply(c2[i], chatId)
    ensures Replies(c1, chatId) == Replies(c2, chatId)
  {
  }

  /**
   * A send that throws ends the update: the replies before it went out, the
   * error is logged exactly once with the exception's message, and for "да"
   * a failure of the first send means the travel options are never built.
   */
  lemma FailedSendLoggedOnce(update: Update, failure: Option<SendFailure>)
    requires TextOf(update).Some? && Fails(update, failure)
    ensures var calls := Dispatch(TextOf(update).value);
      && Sent(update, failure) == Replies(calls[..failure.value.attempt], ChatIdOf(update))
      && BotLog(update, failure) == [Error(SendErrorPrefix + failure.value.reason)]
      && (Lower(TextOf(update).value) == Yes && failure.value.attempt == 0 ==>
            Sent(update, failure) == [] && ServiceLog(update, failure) == [])
  {
    var calls := Dispatch(TextOf(update).value);
    if Lower(TextOf(update).value) == Yes && failure.value.attempt == 0 {
      assert Invoked(update, failure) == [HandleUserResponseCall(TextOf(update).value)];
      assert CallsLog([HandleUserResponseCall(TextOf(update).value)], ChatIdOf(update)) == [];
    }
  }

  class Bot {
    const commandService: CommandServiceImpl
    /** The messages handed to `execute` that went out, oldest first. */
    var outbox: seq<SendMessage>
    /** The lines the bot's injected logger has received. */
    var log: seq<LogEntry>

    constructor (commandService: CommandServiceImpl)
      ensures this.commandService == commandService && outbox == [] && log == []
    {
      this.commandService := commandService;
      outbox := [];
      log := [];
    }

    /** `execute(m)` as the `attempt`-th send of the current update: throws, or appends to the outbox. */
    method Execute(m: SendMessage, attempt: nat, failure: Option<SendFailure>) returns (thrown: Option<string>)
      modifies this
      ensures failure.Some? && failure.value.attempt == attempt ==> thrown == Some(failure.value.reason) && outbox == old(outbox)
      ensures !(failure.Some? && failure.value.attempt == attempt) ==> thrown == None && outbox == old(outbox) + [m]
      ensures log == old(log)
    {
      if failure.Some? && failure.value.attempt == attempt {
        return Some(failure.value.reason);
      }
      outbox := outbox + [m];
      return None;
    }

    /**
     * `execute(commandService.<call>(chatId))` as the `attempt`-th send: the
     * service builds the reply, which is sent unless this send throws.
     */
    method Answer(call: Call, chatId: string, attempt: nat, failure: Option<SendFailure>) returns (thrown: Option<string>)
      modifies this, commandService
      ensures failure.Some? && failure.value.attempt == attempt ==> thrown == Some(failure.value.reason) && outbox == old(outbox)
      ensures !(failure.Some? && failure.value.attempt == attempt) ==> thrown == None && outbox == old(outbox) + [Reply(call, chatId)]
      ensures commandService.log == old(commandService.log) + CallLog(call, chatId)
      ensures log == old(log)
    {
      var m: SendMessage;
      match call {
        case StartCommandCall => m := commandService.StartCommand(chatId);
        case GetHelpCall => m := GetHelp(chatId);
        case HandleUserResponseCall(text) => m := HandleUserResponse(chatId, text);
        case ShowTravelOptionsCall => m := commandService.ShowTravelOptions(chatId);
      }
      thrown := Execute(m, attempt, failure);
    }

    /**
     * The two sends of the "да" branch: call `c0` and send its reply, then,
     * only if that send returned normally, call `c1` and send its reply.
     */
    method AnswerTwice(c0: Call, c1: Call, chatId: string, failure: Option<SendFailure>) returns (thrown: Option<string>)
      modifies this, commandService
      ensures var first, second := failure.Some? && failure.value.attempt == 0, failure.Some? && failure.value.attempt == 1;
        && (first || second ==> thrown == Some(failure.value.reason))
        && (!(first || second) ==> thrown == None)
        && outbox == old(outbox) + (if first then [] else if second then [Reply(c0, chatId)] else [Reply(c0, chatId), Reply(c1, chatId)])
        && commandService.log == old(commandService.log) + (if first then CallLog(c0, chatId) else CallLog(c0, chatId) + CallLog(c1, chatId))
      ensures log == old(log)
    {
      thrown := Answer(c0, chatId, 0, failure);
      if thrown == None {
        thrown := Answer(c1, chatId, 1, failure);
      }
    }

    /** `onUpdateReceived(update)`. */
    method OnUpdateReceived(update: Update, failure: Option<SendFailure>)
      modifies this, commandService
      ensures outbox == old(outbox) + Sent(update, failure)
      ensures log == old(log) + BotLog(update, failure)
      ensures commandService.log == old(commandService.log) + ServiceLog(update, failure)
    {
      if update.message.None? || !HasText(update.message.value) {
        return;
      }
      var messageText := update.message.value.text.value;
      var chatId := DecimalString(update.message.value.chatId);
      var thrown: Option<string>;
      var key := Lower(messageText);
      assert TextOf(update) == Some(messageText) && ChatIdOf(update) == chatId;
      if key == StartKey {
        assert Calls(update) == [StartCommandCall];
        OneCallOutcome(update, failure, StartCommandCall);
        thrown := Answer(StartCommandCall, chatId, 0, failure);
      } else if key == HelpKey {
        assert Calls(update) == [GetHelpCall];
        OneCallOutcome(update, failure, GetHelpCall);
        thrown := Answer(GetHelpCall, chatId, 0, failure);
      } else if key == Yes {
        assert Calls(update) == [HandleUserResponseCall(messageText), ShowTravelOptionsCall];
        TwoCallsOutcome(update, failure);
        thrown := AnswerTwice(HandleUserResponseCall(messageText), ShowTravelOptionsCall, chatId, failure);
      } else {
        assert Calls(update) == [HandleUserResponseCall(messageText)];
        OneCallOutcome(update, failure, HandleUserResponseCall(messageText));
        thrown := Answer(HandleUserResponseCall(messageText), chatId, 0, failure);
      }
      if thrown.Some? {
        log := log + [Error(SendErrorPrefix + thrown.value)];
      }
    }
  }
}
