/**
 * The bot as app.py runs it: module-level caches and text files updated in
 * place by the command handlers, and `bot.sendMessage` recorded in an outbox.
 * Every method is proved to leave the state its step function in App
 * describes.
 */
module Bot {
  import opened Wrappers
  import opened Text
  import opened App
  import AppProperties

  class ChatBot {
    // the three files
    var keywordsFile: string
    var whitelistFile: string
    var baseChatFile: string
    // the three module-level caches KEYWORDS, WHITELIST, BASE_CHAT_ID
    var keywords: seq<string>
    var whitelist: seq<string>
    var baseChat: Recipient
    // every message sent so far
    var outbox: seq<Outgoing>

    function Snapshot(): Store
      reads this
    {
      Store(keywordsFile, whitelistFile, baseChatFile, keywords, whitelist, baseChat, outbox)
    }

    /** Each cache agrees with its file. */
    ghost predicate Valid()
      reads this
    {
      Consistent(Snapshot())
    }

    /** Module import: the three files are read into the caches. */
    constructor (keywordsText: string, whitelistText: string, baseChatText: string)
      ensures Valid()
      ensures Snapshot() == Boot(keywordsText, whitelistText, baseChatText)
    {
      keywordsFile, whitelistFile, baseChatFile := keywordsText, whitelistText, baseChatText;
      // the initial values of the globals; BASE_CHAT_ID starts as None, which
      // no recipient stands for, and is overwritten by the load below
      keywords, whitelist, baseChat, outbox := ["keyword_example"], [], ByText(""), [];
      new;
      LoadKeywords();
      LoadWhitelist();
      LoadBaseChat();
    }

    /** `load_keywords`. */
    method LoadKeywords()
      modifies this
      ensures old(Valid()) ==> Valid()
      ensures Snapshot() == old(Snapshot()).(keywords := Lines(keywordsFile))
    {
      keywords := Lines(keywordsFile);
    }

    /** `load_whitelist`. */
    method LoadWhitelist()
      modifies this
      ensures old(Valid()) ==> Valid()
      ensures Snapshot() == old(Snapshot()).(whitelist := Lines(whitelistFile))
    {
      whitelist := Lines(whitelistFile);
    }

    /** `load_base_chat`: the base chat becomes the file's text, as read. */
    method LoadBaseChat()
      modifies this
      ensures old(Valid()) ==> Valid()
      ensures Snapshot() == old(Snapshot()).(baseChat := ByText(baseChatFile))
    {
      baseChat := ByText(baseChatFile);
    }

    /** `bot.sendMessage(to, text)`. */
    method SendMessage(to: Recipient, text: string)
      modifies this
      ensures old(Valid()) ==> Valid()
      ensures Snapshot() == Send(old(Snapshot()), to, text)
    {
      outbox := outbox + [(to, text)];
    }

    /** `show_keywords`. */
    method ShowKeywords(chatId: int)
      modifies this
      ensures old(Valid()) ==> Valid()
      ensures Snapshot() == ShowKeywordsStep(old(Snapshot()), chatId)
    {
      LoadKeywords();
      var keywordsList := Join(keywords);
      SendMessage(ById(chatId), keywordsList);
    }

    /** `set_keywords`: `text[14:].lower()` replaces the keyword file. */
    method SetKeywords(chatId: int, text: string)
      modifies this
      ensures old(Valid()) ==> Valid()
      ensures Snapshot() == SetKeywordsStep(old(Snapshot()), chatId, text)
    {
      var keywordsList := Lower(SliceFrom(text, KeywordsArgOffset));
      keywordsFile := keywordsList;
      LoadKeywords();
      SendMessage(ById(chatId), "New keywords list:\n" + keywordsList);
    }

    /** `add_keywords`: "\n" and `text[14:].lower()` are appended to the keyword file. */
    method AddKeywords(chatId: int, text: string)
      modifies this
      ensures old(Valid()) ==> Valid()
      ensures Snapshot() == AddKeywordsStep(old(Snapshot()), chatId, text)
    {
      var keywordsList := "\n" + Lower(SliceFrom(text, KeywordsArgOffset));
      assert keywordsFile + keywordsList == keywordsFile + "\n" + KeywordsArg(text);
      keywordsFile := keywordsFile + keywordsList;
      LoadKeywords();
      var newList := Join(keywords);
      SendMessage(ById(chatId), "New keywords list:\n" + newList);
    }

    /** `show_whitelist`: no reload; the character set of the joined whitelist. */
    method ShowWhitelist(chatId: int, render: set<char> -> string)
      modifies this
      ensures old(Valid()) ==> Valid()
      ensures Snapshot() == ShowWhitelistStep(old(Snapshot()), chatId, render)
    {
      var chars := CharSet(Join(whitelist));
      SendMessage(ById(chatId), "Whitelist:\n" + render(chars));
    }

    /** `set_whitelist`: `text[15:]` replaces the whitelist file, verbatim. */
    method SetWhitelist(chatId: int, text: string)
      modifies this
      ensures old(Valid()) ==> Valid()
      ensures Snapshot() == SetWhitelistStep(old(Snapshot()), chatId, text)
    {
      var newWhitelist := SliceFrom(text, WhitelistArgOffset);
      whitelistFile := newWhitelist;
      LoadWhitelist();
      SendMessage(ById(chatId), "New whitelist:\n" + newWhitelist);
    }

    /** `make_base_chat`: this chat becomes the base chat; its id is written to the file. */
    method MakeBaseChat(chatId: int)
      modifies this
      ensures old(Valid()) ==> Valid()
      ensures Snapshot() == MakeBaseChatStep(old(Snapshot()), chatId)
    {
      baseChat := ById(chatId);
      baseChatFile := IntToString(chatId);
      SendMessage(ById(chatId), "This is base chat now");
    }

    /** `help_message`. */
    method HelpMessage(chatId: int)
      modifies this
      ensures old(Valid()) ==> Valid()
      ensures Snapshot() == HelpStep(old(Snapshot()), chatId)
    {
      SendMessage(ById(chatId), HelpText());
    }

    /** `func(bot, chat_id, text)` for the handler `c` of the command table. */
    method Run(c: Command, chatId: int, text: string, render: set<char> -> string)
      modifies this
      ensures old(Valid()) ==> Valid()
      ensures Snapshot() == Handle(old(Snapshot()), c, chatId, text, render)
    {
      match c
      case ShowKeywords => ShowKeywords(chatId);
      case SetKeywords => SetKeywords(chatId, text);
      case AddKeywords => AddKeywords(chatId, text);
      case ShowWhitelist => ShowWhitelist(chatId, render);
      case SetWhitelist => SetWhitelist(chatId, text);
      case MakeBaseChat => MakeBaseChat(chatId);
      case Help => HelpMessage(chatId);
    }

    /**
     * `check_message`: for every keyword found in the lower-cased text, one
     * send to the base chat, of the link to the message or of a text notice.
     */
    method CheckMessage(m: Message)
      modifies this
      ensures old(Valid()) ==> Valid()
      ensures Snapshot() == CheckMessageStep(old(Snapshot()), m)
    {
      var text := Lower(TextOf(m));
      var i := 0;
      while i < |keywords|
        invariant 0 <= i <= |keywords|
        invariant Snapshot() == old(Snapshot()).(outbox := old(outbox) + Relays(keywords[..i], baseChat, m))
      {
        var keyword := keywords[i];
        assert keywords[..i + 1][..i] == keywords[..i];
        if Contains(text, keyword) {
          match m.chatUsername
          case Some(chatName) =>
            var link := "https://t.me/" + chatName + "/" + IntToString(m.messageId);
            SendMessage(baseChat, link);
          case None =>
            SendMessage(baseChat, NoticeHead + IntToString(m.chatId) + NoticeMiddle + text);
        }
        i := i + 1;
      }
      assert keywords[..i] == keywords;
    }

    /**
     * `parse_command`: walk the command table in order; on the first literal
     * that starts the text, run its handler if the sender passes the
     * whitelist, and stop either way; with no literal matching, run the
     * keyword matcher.
     */
    method ParseCommand(m: Message, render: set<char> -> string)
      modifies this
      ensures old(Valid()) ==> Valid()
      ensures Snapshot() == DispatchStep(old(Snapshot()), m, render)
    {
      if Valid() {
        AppProperties.DispatchPreservesConsistent(Snapshot(), m, render);
      }
      var text := TextOf(m);
      var i := 0;
      while i < |CommandTable|
        invariant 0 <= i <= |CommandTable|
        invariant FirstMatch(CommandTable[i..], text) == FirstMatch(CommandTable, text)
        invariant Snapshot() == old(Snapshot())
      {
        var (command, func) := CommandTable[i];
        if StartsWith(text, command) {
          if UserInWhitelist(m.from, whitelist) {
            Run(func, m.chatId, text, render);
          }
          return;
        }
        assert CommandTable[i..][1..] == CommandTable[i + 1..];
        i := i + 1;
      }
      CheckMessage(m);
    }

    /**
     * `telegram_webhook`: building the bot reloads the keywords; then a
     * message that has a text is dispatched. `None` is an update without a
     * message.
     */
    method TelegramWebhook(update: Option<Message>, render: set<char> -> string)
      modifies this
      ensures old(Valid()) ==> Valid()
      ensures Snapshot() == WebhookStep(old(Snapshot()), update, render)
    {
      LoadKeywords();
      match update
      case Some(message) =>
        if message.text.Some? {
          ParseCommand(message, render);
        }
      case None =>
    }
  }
}
