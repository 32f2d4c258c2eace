/**
 * The chat-tracking bot of app.py as values: the incoming message, the
 * whitelist gate, the keyword matcher, the command table and, for every
 * handler, the state it leaves behind. The class in bot.dfy runs these steps
 * in place and is proved to agree with the functions here.
 */
module App {
  import opened Wrappers
  import opened Text

  // ---------------------------------------------------------------------------
  // Chats and messages
  // ---------------------------------------------------------------------------

  /**
   * Where a message is sent. The base chat is held as the text read from its
   * file after a load, and as the integer chat id after `/make_this_chat_base`;
   * the chat platform accepts both.
   */
  datatype Recipient = ById(id: int) | ByText(text: string)

  /** One call of `bot.sendMessage(recipient, text)`. */
  type Outgoing = (Recipient, string)

  /** The `from` object of a message; an absent `from` has neither field. */
  datatype Sender = Sender(id: Option<int>, username: Option<string>)

  /** The fields of an incoming message that the bot reads. */
  datatype Message = Message(
    chatId: int,                    // message["chat"]["id"]
    chatUsername: Option<string>,   // message["chat"]["username"], public groups only
    messageId: int,                 // message["message_id"]
    from: Sender,                   // message["from"]
    text: Option<string>)           // message["text"]

  /** What `message.get("text", {})` yields: the text, or an empty dict. */
  datatype TextField = TextValue(value: string) | EmptyDict

  function GetTextFromMessage(m: Message): (r: TextField)
    ensures r.TextValue? <==> m.text.Some?
    ensures m.text.Some? ==> r.value == m.text.value
  {
    match m.text
    case Some(t) => TextValue(t)
    case None => EmptyDict
  }

  /** `message.get("text", "")`. */
  function TextOf(m: Message): string {
    m.text.GetOr("")
  }

  // ---------------------------------------------------------------------------
  // Whitelist gate
  // ---------------------------------------------------------------------------

  /** Python's `str(user_id)` where an absent id is `None`. */
  function IdString(id: Option<int>): string {
    match id
    case Some(n) => IntToString(n)
    case None => "None"
  }

  /** Python's `str(username)` where an absent username is `None`. */
  function NameString(name: Option<string>): string {
    match name
    case Some(s) => s
    case None => "None"
  }

  /** Python truthiness of `user_id or username`: 0 and "" count as absent. */
  predicate HasIdentity(u: Sender) {
    (u.id.Some? && u.id.value != 0) || (u.username.Some? && u.username.value != "")
  }

  /** `user_in_whitelist`: the sender's id or username, as text, is an exact whitelist entry. */
  predicate UserInWhitelist(u: Sender, whitelist: seq<string>) {
    if HasIdentity(u) then IdString(u.id) in whitelist || NameString(u.username) in whitelist
    else false
  }

  // ---------------------------------------------------------------------------
  // Keyword matcher
  // ---------------------------------------------------------------------------

  const NoticeHead: string := "В группе "
  const NoticeMiddle: string := " было сообщение: "

  /**
   * What is forwarded for one matching keyword: a link to the message when
   * its chat has a public username, else a notice with the chat id and the
   * lower-cased text.
   */
  function RelayText(m: Message): string {
    match m.chatUsername
    case Some(name) => "https://t.me/" + name + "/" + IntToString(m.messageId)
    case None => NoticeHead + IntToString(m.chatId) + NoticeMiddle + Lower(TextOf(m))
  }

  /**
   * The sends of `check_message` over `keywords` to the base chat `base`: one
   * per keyword found in the lower-cased text, in list order (there is no
   * `break`). Built from the back, as the loop extends it.
   */
  function Relays(keywords: seq<string>, base: Recipient, m: Message): seq<Outgoing>
    decreases |keywords|
  {
    if keywords == [] then []
    else
      var last := keywords[|keywords| - 1];
      Relays(keywords[..|keywords| - 1], base, m)
        + (if Contains(Lower(TextOf(m)), last) then [(base, RelayText(m))] else [])
  }

  /** How many keywords of the list occur in `t` (duplicates counted each time). */
  function CountMatching(keywords: seq<string>, t: string): nat
    decreases |keywords|
  {
    if keywords == [] then 0
    else
      CountMatching(keywords[..|keywords| - 1], t)
        + (if Contains(t, keywords[|keywords| - 1]) then 1 else 0)
  }

  /** The chat a recipient designates: its id, or the id its text spells. */
  function ChatOf(r: Recipient): Option<int> {
    match r
    case ById(n) => Some(n)
    case ByText(t) => ParseInt(t)
  }

  /** `n` copies of `x`. */
  function Repeat<T>(x: T, n: nat): (r: seq<T>)
    ensures |r| == n
    ensures forall i :: 0 <= i < n ==> r[i] == x
  {
    if n == 0 then [] else Repeat(x, n - 1) + [x]
  }

  // ---------------------------------------------------------------------------
  // Command table
  // ---------------------------------------------------------------------------

  datatype Command =
    | ShowKeywords
    | SetKeywords
    | AddKeywords
    | ShowWhitelist
    | SetWhitelist
    | MakeBaseChat
    | Help

  /** The table of `parse_command`, in its iteration order. */
  const CommandTable: seq<(string, Command)> := [
    ("/show_keywords", ShowKeywords),
    ("/set_keywords", SetKeywords),
    ("/add_keywords", AddKeywords),
    ("/show_whitelist", ShowWhitelist),
    ("/set_whitelist", SetWhitelist),
    ("/make_this_chat_base", MakeBaseChat),
    ("/help", Help)
  ]

  /** The command of the first entry whose literal starts the text, if any. */
  function FirstMatch(table: seq<(string, Command)>, text: string): Option<Command>
    decreases |table|
  {
    if table == [] then None
    else if StartsWith(text, table[0].0) then Some(table[0].1)
    else FirstMatch(table[1..], text)
  }

  /** The fixed argument offsets of the handlers: one past "/set_keywords", "/add_keywords" and "/set_whitelist". */
  const KeywordsArgOffset: nat := 14
  const WhitelistArgOffset: nat := 15

  /** The `/help` text: a header, then every command with its description. */
  const HelpEntries: seq<(string, string)> := [
    ("/show_keywords", "Show current list of keywords"),
    ("/set_keywords", "Set new list of keywords.\nFormat:\n'/set_keywords\nkeyword1\nkeyword2'"),
    ("/add_keywords", "Add some words to the current keywords list.\nFormat:\n'/add_keywords\nkeyword\nkeyword'"),
    ("/show_whitelist", "Show current list of whitelisted users"),
    ("/set_whitelist", "Set new list of whitelisted users.\nFormat:\n'/set_whitelist\nusername or user_id\nusername or user_id'"),
    ("/make_this_chat_base", "Make this chat base. All messages with keywords will be directed here"),
    ("/help", "Show this message")
  ]

  const HelpHeader: string := "Welcome to the chat tracking bot. Here is a command list:\n"

  function HelpBody(entries: seq<(string, string)>): string
    decreases |entries|
  {
    if entries == [] then ""
    else entries[0].0 + ": " + entries[0].1 + "\n\n" + HelpBody(entries[1..])
  }

  function HelpText(): string {
    HelpHeader + HelpBody(HelpEntries)
  }

  // ---------------------------------------------------------------------------
  // State: the three files, the three caches and the outbox
  // ---------------------------------------------------------------------------

  datatype Store = Store(
    keywordsFile: string,        // mysite/keywords.txt
    whitelistFile: string,       // mysite/whitelist.txt
    baseChatFile: string,        // mysite/base_chat.txt
    keywords: seq<string>,       // KEYWORDS
    whitelist: seq<string>,      // WHITELIST
    baseChat: Recipient,         // BASE_CHAT_ID
    outbox: seq<Outgoing>)       // every bot.sendMessage so far

  /**
   * Each cache holds what its file says: the keyword and whitelist caches are
   * the file's lines, and the base chat is the file's text or the chat id whose
   * decimal form the file holds.
   */
  predicate Consistent(s: Store) {
    && s.keywords == Lines(s.keywordsFile)
    && s.whitelist == Lines(s.whitelistFile)
    && (s.baseChat == ByText(s.baseChatFile)
        || (s.baseChat.ById? && s.baseChatFile == IntToString(s.baseChat.id)))
  }

  /** The state after the module-level `load_keywords()`, `load_whitelist()`, `load_base_chat()`. */
  function Boot(keywordsFile: string, whitelistFile: string, baseChatFile: string): (s: Store)
    ensures Consistent(s) && s.outbox == []
  {
    Store(keywordsFile, whitelistFile, baseChatFile,
          Lines(keywordsFile), Lines(whitelistFile), ByText(baseChatFile), [])
  }

  /** Everything but the outbox: what the files and caches hold. */
  function Config(s: Store): Store
  {
    s.(outbox := [])
  }

  function Send(s: Store, to: Recipient, text: string): Store {
    s.(outbox := s.outbox + [(to, text)])
  }

  /** `show_keywords`: reload, send the keywords joined by "\n" to the chat. */
  function ShowKeywordsStep(s: Store, chatId: int): (r: Store)
    ensures r.keywords == Lines(s.keywordsFile)
    ensures Config(r) == Config(s.(keywords := Lines(s.keywordsFile)))
  {
    var ks := Lines(s.keywordsFile);
    Send(s.(keywords := ks), ById(chatId), Join(ks))
  }

  /** The new keyword file text of `set_keywords` and `add_keywords`: `text[14:].lower()`. */
  function KeywordsArg(text: string): (r: string)
    ensures forall i :: 0 <= i < |r| ==> !IsUpper(r[i])
  {
    Lower(SliceFrom(text, KeywordsArgOffset))
  }

  /** `set_keywords`: overwrite the keyword file, reload, echo the new list. */
  function SetKeywordsStep(s: Store, chatId: int, text: string): (r: Store)
    ensures r.keywordsFile == KeywordsArg(text)
    ensures r.keywords == Lines(r.keywordsFile)
    ensures r.whitelistFile == s.whitelistFile && r.whitelist == s.whitelist
    ensures r.baseChatFile == s.baseChatFile && r.baseChat == s.baseChat
  {
    var kl := KeywordsArg(text);
    Send(s.(keywordsFile := kl, keywords := Lines(kl)), ById(chatId), "New keywords list:\n" + kl)
  }

  /** `add_keywords`: append "\n" and the argument to the keyword file, reload, echo the list. */
  function AddKeywordsStep(s: Store, chatId: int, text: string): (r: Store)
    ensures r.keywordsFile == s.keywordsFile + "\n" + KeywordsArg(text)
    ensures s.keywordsFile <= r.keywordsFile
    ensures Lines(s.keywordsFile) <= r.keywords
    ensures r.keywords == Lines(r.keywordsFile)
    ensures r.whitelistFile == s.whitelistFile && r.whitelist == s.whitelist
    ensures r.baseChatFile == s.baseChatFile && r.baseChat == s.baseChat
  {
    var f := s.keywordsFile + "\n" + KeywordsArg(text);
    var ks := Lines(f);
    LinesAppend(s.keywordsFile, KeywordsArg(text));
    LinesOfSplit(s.keywordsFile);
    Send(s.(keywordsFile := f, keywords := ks), ById(chatId), "New keywords list:\n" + Join(ks))
  }

  /** The distinct characters of a text: Python's `set(s)`. */
  function CharSet(s: string): set<char> {
    set c | c in s
  }

  /**
   * `show_whitelist`: no reload; sends the rendering of the SET OF CHARACTERS
   * of the joined whitelist. `render` stands for Python's `str()` of a set,
   * whose element order the language leaves unspecified.
   */
  function ShowWhitelistStep(s: Store, chatId: int, render: set<char> -> string): (r: Store)
    ensures Config(r) == Config(s)
    ensures r.outbox == s.outbox + [(ById(chatId), "Whitelist:\n" + render(CharSet(Join(s.whitelist))))]
  {
    Send(s, ById(chatId), "Whitelist:\n" + render(CharSet(Join(s.whitelist))))
  }

  /** The new whitelist file text of `set_whitelist`: `text[15:]`, verbatim. */
  function WhitelistArg(text: string): string {
    SliceFrom(text, WhitelistArgOffset)
  }

  /** `set_whitelist`: overwrite the whitelist file verbatim, reload, echo it. */
  function SetWhitelistStep(s: Store, chatId: int, text: string): (r: Store)
    ensures |text| >= WhitelistArgOffset ==> text == text[..WhitelistArgOffset] + r.whitelistFile
    ensures |text| < WhitelistArgOffset ==> r.whitelistFile == "" && r.whitelist == []
    ensures r.whitelist == Lines(r.whitelistFile)
    ensures r.keywordsFile == s.keywordsFile && r.keywords == s.keywords
    ensures r.baseChatFile == s.baseChatFile && r.baseChat == s.baseChat
  {
    var w := WhitelistArg(text);
    Send(s.(whitelistFile := w, whitelist := Lines(w)), ById(chatId), "New whitelist:\n" + w)
  }

  /** `make_base_chat`: the current chat becomes the base chat, in memory and in its file. */
  function MakeBaseChatStep(s: Store, chatId: int): (r: Store)
    ensures ParseInt(r.baseChatFile) == Some(chatId)
    ensures r.baseChat == ById(chatId)
    ensures r.keywordsFile == s.keywordsFile && r.keywords == s.keywords
    ensures r.whitelistFile == s.whitelistFile && r.whitelist == s.whitelist
  {
    ParseIntToString(chatId);
    Send(s.(baseChat := ById(chatId), baseChatFile := IntToString(chatId)),
         ById(chatId), "This is base chat now")
  }

  /** `help_message`: send the help text. */
  function HelpStep(s: Store, chatId: int): (r: Store)
    ensures Config(r) == Config(s)
  {
    Send(s, ById(chatId), HelpText())
  }

  /** Run the handler of `c` as `func(bot, chat_id, text)`. */
  function Handle(s: Store, c: Command, chatId: int, text: string, render: set<char> -> string): Store {
    match c
    case ShowKeywords => ShowKeywordsStep(s, chatId)
    case SetKeywords => SetKeywordsStep(s, chatId, text)
    case AddKeywords => AddKeywordsStep(s, chatId, text)
    case ShowWhitelist => ShowWhitelistStep(s, chatId, render)
    case SetWhitelist => SetWhitelistStep(s, chatId, text)
    case MakeBaseChat => MakeBaseChatStep(s, chatId)
    case Help => HelpStep(s, chatId)
  }

  /** `check_message`: forward the message once per matching keyword. */
  function CheckMessageStep(s: Store, m: Message): (r: Store)
    ensures Config(r) == Config(s)
    ensures s.outbox <= r.outbox
  {
    s.(outbox := s.outbox + Relays(s.keywords, s.baseChat, m))
  }

  /** `parse_command`: the first matching command, gated; else the keyword matcher. */
  function DispatchStep(s: Store, m: Message, render: set<char> -> string): Store {
    var text := TextOf(m);
    match FirstMatch(CommandTable, text)
    case Some(c) =>
      if UserInWhitelist(m.from, s.whitelist) then Handle(s, c, m.chatId, text, render) else s
    case None => CheckMessageStep(s, m)
  }

  /**
   * One webhook request: `get_tg_bot` reloads the keywords, then the message is
   * dispatched when the update has a message with a text (`None` stands for an
   * update without either).
   */
  function WebhookStep(s: Store, update: Option<Message>, render: set<char> -> string): Store {
    var s1 := s.(keywords := Lines(s.keywordsFile));
    match update
    case Some(m) => if m.text.Some? then DispatchStep(s1, m, render) else s1
    case None => s1
  }
}
