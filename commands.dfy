/**
 * The reply records the bot sends and the log lines it writes: `SendMessage`
 * with its chat id, text and optional inline keyboard, as plain values.
 */
module Messages {
  import opened Basics

  /** `InlineKeyboardButton` with a text and a URL. */
  datatype Button = Button(text: string, url: string)

  type Row = seq<Button>

  /** `InlineKeyboardMarkup`: the rows of buttons, top to bottom. */
  datatype Keyboard = Keyboard(rows: seq<Row>)

  datatype SendMessage = SendMessage(chatId: string, text: string, replyMarkup: Option<Keyboard>)

  /** A line given to the injected logger. */
  datatype LogEntry = Info(line: string) | Error(line: string)
}

/**
 * `CommandServiceImpl`: one reply builder per command. The builders that
 * only assemble a message are functions; `startCommand` and
 * `showTravelOptions` also write to the logger and are methods of a class
 * whose `log` records what the logger received.
 */
module Commands {
  import opened Basics
  import opened Text
  import opened Messages

  const Yes := "да"
  const No := "нет"

  const Greeting := "Привет! Хотите отправиться в путешествие? (Да/Нет)"

  const PositiveLead := "Отлично! Вот варианты для поездки"
  const PositiveText := PositiveLead + ", а также вы можете подобрать жилье и страховку. Как бонус статья, как можно зарабатывать в поездках и путешествиях в конце списка!"

  const RefusalLead := "Жаль! Если передумаете"
  const RefusalText := RefusalLead + " - просто напишите /start"

  const ClarifyLead := "Пожалуйста, введите 'Да' по-русски"
  const ClarifyText := ClarifyLead + ", если хотите продолжить, или 'Нет' для выхода."

  const TravelPromptLead := "Выберите тип путешествия"
  const TravelPrompt := TravelPromptLead + ":"

  const Farewell := "Приятного путешествия!"
  const SiteName := "keyslady.ru"
  const GoodbyeLink := " Если хотите больше информации про путешествия, горящие туры, календарь низких цен - заходите ко мне на сайт https://"
  const GoodbyeText := Farewell + GoodbyeLink + SiteName + "/"

  const HelpCommands := "/start - начать диалог"
  const HelpText := "Доступные команды:\n" + HelpCommands

  const FirstOption := "Экскурсии"

  /** The nine travel options, in the order the keyboard shows them: button text and link. */
  const TravelOptions: seq<(string, string)> := [
    ("1. " + FirstOption, "https://tripster.tp.st/Pr5STfjY?erid=2VtzqxAsKVL"),
    ("2. Туры с перелетом", "https://travelata.tp.st/N5mhcEzA?erid=2Vtzqw422R8"),
    ("3. Санатории", "https://sanatory.tp.st/YBl7VDw8?erid=2VtzqvmBLWG"),
    ("4. Круизы", "https://lavoyage.tp.st/I1mwtXxV?erid=2VtzqufYFY8"),
    ("5. Отели", "https://hotellook.tp.st/5nalTqC1"),
    ("6. Квартиры посуточно", "https://sutochno.tp.st/Atl2dRdj"),
    ("7. Связь в роуминге", "https://yesim.tp.st/dOy2DoeY?erid=2VtzquZdJrY"),
    ("8. Страховка", "https://cherehapa.tp.st/BLDnBaE5?erid=2VtzqwzQ8kJ"),
    ("9. Как зарабатывать на путешествиях", "https://keyslady.ru/путешествуй-с-удовольствием-и-зараба/?swcfpc=1")
  ]

  function StartCommandLog(chatId: string): string {
    "Обработка команды /start для чата: " + chatId
  }

  function TravelOptionsLog(chatId: string): string {
    "Показ вариантов путешествий для чата: " + chatId
  }

  /** The reply of `startCommand`: the greeting, addressed to the chat, with no keyboard. */
  function StartReply(chatId: string): (m: SendMessage)
    ensures m.chatId == chatId && m.replyMarkup == None && Contains(m.text, Greeting)
  {
    ContainsPrefix(Greeting, []);
    assert Greeting + [] == Greeting;
    SendMessage(chatId, Greeting, None)
  }

  /** The three reply texts differ from each other. */
  lemma ReplyTextsDistinct()
    ensures PositiveText != RefusalText && PositiveText != ClarifyText && RefusalText != ClarifyText
  {
    assert PositiveText[0] == 'О' && RefusalText[0] == 'Ж' && ClarifyText[0] == 'П';
  }

  /**
   * `handleUserResponse`: the positive reply exactly for "да" ignoring case,
   * the refusal exactly for "нет" ignoring case (when it is not "да"), and
   * the request to answer again for anything else.
   */
  function HandleUserResponse(chatId: string, text: string): (m: SendMessage)
    ensures m.chatId == chatId && m.replyMarkup == None
    ensures m.text == PositiveText <==> EqualsIgnoreCase(text, Yes)
    ensures m.text == RefusalText <==> !EqualsIgnoreCase(text, Yes) && EqualsIgnoreCase(text, No)
    ensures m.text == ClarifyText <==> !EqualsIgnoreCase(text, Yes) && !EqualsIgnoreCase(text, No)
  {
    ReplyTextsDistinct();
    if EqualsIgnoreCase(text, Yes) then SendMessage(chatId, PositiveText, None)
    else if EqualsIgnoreCase(text, No) then SendMessage(chatId, RefusalText, None)
    else SendMessage(chatId, ClarifyText, None)
  }

  /**
   * The reply to a user's answer is decided by its lower-case form alone:
   * positive iff it is "да", refusal iff it is "нет". In particular answers
   * that differ only in case get the same reply.
   */
  lemma HandleUserResponseByLower(chatId: string, text: string)
    ensures var m := HandleUserResponse(chatId, text);
      && (m.text == PositiveText <==> Lower(text) == Yes)
      && (m.text == RefusalText <==> Lower(text) == No)
      && (m.text == ClarifyText <==> Lower(text) != Yes && Lower(text) != No)
  {
    EqualsIgnoreCaseIffSameLower(text, Yes);
    EqualsIgnoreCaseIffSameLower(text, No);
    assert Lower(Yes) == Yes;
    assert Lower(No) == No;
  }

  /** Two answers with the same lower-case form get the same reply. */
  lemma HandleUserResponseCaseBlind(chatId: string, a: string, b: string)
    requires Lower(a) == Lower(b)
    ensures HandleUserResponse(chatId, a) == HandleUserResponse(chatId, b)
  {
    HandleUserResponseByLower(chatId, a);
    HandleUserResponseByLower(chatId, b);
    ReplyTextsDistinct();
  }

  /** Answering the already lower-cased text, as the bot's `switch` key is, gives the same reply. */
  lemma HandleUserResponseOfLower(chatId: string, text: string)
    ensures HandleUserResponse(chatId, Lower(text)) == HandleUserResponse(chatId, text)
  {
    LowerIdempotent(text);
    HandleUserResponseCaseBlind(chatId, Lower(text), text);
  }

  /** The answers the service is exercised with: "Да", "Нет" and "Может быть". */
  lemma HandleUserResponseSamples(chatId: string)
    ensures HandleUserResponse(chatId, "Да").text == PositiveText
    ensures HandleUserResponse(chatId, "Нет").text == RefusalText
    ensures HandleUserResponse(chatId, "Может быть").text == ClarifyText
  {
    HandleUserResponseByLower(chatId, "Да");
    HandleUserResponseByLower(chatId, "Нет");
    HandleUserResponseByLower(chatId, "Может быть");
    assert Lower("Да") == Yes;
    assert Lower("Нет") == No;
    assert |Lower("Может быть")| != |Yes| && |Lower("Может быть")| != |No|;
  }

  /** `getHelp`: the command list, addressed to the chat. */
  function GetHelp(chatId: string): (m: SendMessage)
    ensures m.chatId == chatId && m.replyMarkup == None && Contains(m.text, HelpCommands)
  {
    ContainsPiece("Доступные команды:\n", HelpCommands, []);
    assert "Доступные команды:\n" + HelpCommands + [] == HelpText;
    SendMessage(chatId, HelpText, None)
  }

  /** `sendGoodbyeMessage`: the farewell with the link to the author's site. */
  function SendGoodbyeMessage(chatId: string): (m: SendMessage)
    ensures m.chatId == chatId && m.replyMarkup == None
    ensures Contains(m.text, Farewell) && Contains(m.text, SiteName)
  {
    ContainsFirstAndThird(Farewell, GoodbyeLink, SiteName, "/");
    SendMessage(chatId, GoodbyeText, None)
  }

  /** `createButtonRow`: a row holding exactly one button with the given text and link. */
  function CreateButtonRow(text: string, url: string): (row: Row)
    ensures |row| == 1 && row[0].text == text && row[0].url == url
  {
    [Button(text, url)]
  }

  /** The keyboard of `showTravelOptions`: one row per travel option, in order. */
  function TravelKeyboard(): Keyboard {
    Keyboard(seq(|TravelOptions|, i requires 0 <= i < |TravelOptions| => CreateButtonRow(TravelOptions[i].0, TravelOptions[i].1)))
  }

  /** The reply of `showTravelOptions`. */
  function TravelReply(chatId: string): SendMessage {
    SendMessage(chatId, TravelPrompt, Some(TravelKeyboard()))
  }

  /**
   * The travel reply is addressed to the chat and asks to choose; its
   * keyboard has nine rows, each holding exactly the one button of its
   * option, and the first offers excursions.
   */
  lemma TravelReplyShape(chatId: string)
    ensures var m := TravelReply(chatId);
      && m.chatId == chatId && Contains(m.text, TravelPromptLead)
      && m.replyMarkup.Some?
      && var rows := m.replyMarkup.value.rows;
      && |rows| == 9
      && (forall i :: 0 <= i < 9 ==> rows[i] == [Button(TravelOptions[i].0, TravelOptions[i].1)])
      && Contains(rows[0][0].text, FirstOption)
  {
    ContainsPrefix(TravelPromptLead, ":");
    ContainsPiece("1. ", FirstOption, []);
    assert "1. " + FirstOption + [] == TravelOptions[0].0;
  }

  class CommandServiceImpl {
    /** The lines the injected logger has received, oldest first. */
    var log: seq<LogEntry>

    constructor ()
      ensures log == []
    {
      log := [];
    }

    /** `startCommand`: log one info line naming the chat, then build the greeting. */
    method StartCommand(chatId: string) returns (m: SendMessage)
      modifies this
      ensures m == StartReply(chatId)
      ensures log == old(log) + [Info(StartCommandLog(chatId))]
    {
      log := log + [Info(StartCommandLog(chatId))];
      m := SendMessage(chatId, Greeting, None);
    }

    /**
     * `showTravelOptions` without its call to `scheduleGoodbyeMessage`: log
     * one info line, add the nine rows in order, attach them to the prompt.
     */
    method ShowTravelOptions(chatId: string) returns (m: SendMessage)
      modifies this
      ensures m == TravelReply(chatId)
      ensures log == old(log) + [Info(TravelOptionsLog(chatId))]
    {
      log := log + [Info(TravelOptionsLog(chatId))];
      var rows: seq<Row> := [];
      rows := rows + [CreateButtonRow("1. Экскурсии", "https://tripster.tp.st/Pr5STfjY?erid=2VtzqxAsKVL")];
      rows := rows + [CreateButtonRow("2. Туры с перелетом", "https://travelata.tp.st/N5mhcEzA?erid=2Vtzqw422R8")];
      rows := rows + [CreateButtonRow("3. Санатории", "https://sanatory.tp.st/YBl7VDw8?erid=2VtzqvmBLWG")];
      rows := rows + [CreateButtonRow("4. Круизы", "https://lavoyage.tp.st/I1mwtXxV?erid=2VtzqufYFY8")];
      rows := rows + [CreateButtonRow("5. Отели", "https://hotellook.tp.st/5nalTqC1")];
      rows := rows + [CreateButtonRow("6. Квартиры посуточно", "https://sutochno.tp.st/Atl2dRdj")];
      rows := rows + [CreateButtonRow("7. Связь в роуминге", "https://yesim.tp.st/dOy2DoeY?erid=2VtzquZdJrY")];
      rows := rows + [CreateButtonRow("8. Страховка", "https://cherehapa.tp.st/BLDnBaE5?erid=2VtzqwzQ8kJ")];
      rows := rows + [CreateButtonRow("9. Как зарабатывать на путешествиях", "https://keyslady.ru/путешествуй-с-удовольствием-и-зараба/?swcfpc=1")];
      assert "1. Экскурсии" == TravelOptions[0].0;
      assert rows == TravelKeyboard().rows;
      m := SendMessage(chatId, "Выберите тип путешествия:", Some(Keyboard(rows)));
      assert "Выберите тип путешествия:" == TravelPrompt;
    }
  }
}
