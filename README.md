# Chat-tracking bot: a Dafny model

The bot watches group chats for configured keywords and forwards each hit to
one designated "base" chat. Admin commands list, set and extend the keyword
list, list and set the whitelist of admins, and make the current chat the
base chat. Only whitelisted senders may run them. Three text files back the
configuration: keywords, whitelist and base chat id. The module-level
caches `KEYWORDS`, `WHITELIST` and `BASE_CHAT_ID` hold their loaded contents.

The model has five modules:

- `Wrappers` (wrappers.dfy): the `Option` type used for absent message fields.
- `Text` (text.dfy): the Python string builtins the bot uses. These are
  `lower` (ASCII only), `splitlines` (`Lines`, on `"\n"` only), `"\n".join`
  (`Join`), `k in t` (`Contains`), `startswith`, the slice `s[n:]` and
  `str(int)` (`IntToString`). A decimal parser `ParseInt` is proved to
  read back what `str(int)` writes.
- `App` (app.dfy): the values.
  - An incoming message is a `Message`; its sender is a `Sender` whose id
    and username may be absent.
  - The whitelist gate is `UserInWhitelist`. The keyword matcher's sends
    are `Relays`. The command table is `CommandTable`, searched by
    `FirstMatch`.
  - `Store` holds the three files, the three caches and an outbox that
    records every `bot.sendMessage`.
  - Every handler is a function from one `Store` to the next.
    `DispatchStep` is `parse_command` and `WebhookStep` is one webhook
    request.
- `Bot` (bot.dfy): class `ChatBot`, the program as it runs. Its fields are
  the files, the caches and the outbox. Its methods update them in place, as
  the handlers update the module globals. `CheckMessage` and `ParseCommand`
  keep the source's loops. Each method is proved to leave exactly the state
  its contract gives; for each handler, that is its `App` step function.
  `Valid()` says that each cache agrees with its file. The constructor sets it up by calling the three loads, and
  every method keeps it.
- `AppProperties` (properties.dfy): lemmas about those step functions.

Three behaviours a reader might not expect, all modelled as the code has
them:

- The keyword matcher has no `break`. A message containing N keywords is
  forwarded N times, not only on the first match.
- `show_whitelist` does not reload the whitelist. It sends the set of
  characters of the joined whitelist, not its entries.
- The gate first tests Python truthiness of `user_id or username`. So id 0
  and the empty username count as absent. An absent field then compares as
  the text `"None"`.

## Model

| member | source | states |
|---|---|---|
| `Bot.ChatBot.constructor` | app.py:48-50 | starts from the initial globals and runs the three loads of module import: each cache is then its file's lines or text, and the caches agree with the files |
| `Bot.ChatBot.LoadKeywords` | app.py:21-24 | `KEYWORDS` becomes the lines of the keyword file; nothing else changes |
| `Bot.ChatBot.LoadWhitelist` | app.py:27-30 | `WHITELIST` becomes the lines of the whitelist file; nothing else changes |
| `Bot.ChatBot.LoadBaseChat` | app.py:33-36 | `BASE_CHAT_ID` becomes the base chat file's text as read; nothing else changes |
| `Bot.ChatBot.SendMessage` | app.py:66 | a send appends exactly one (recipient, text) entry to the outbox and changes nothing else |
| `Bot.ChatBot.ShowKeywords` | app.py:63-66 | reloads the keywords and sends them joined by newlines to the calling chat |
| `Bot.ChatBot.SetKeywords` | app.py:69-76 | the keyword file becomes `text[14:]` lower-cased, the cache its lines, and the new file is echoed |
| `Bot.ChatBot.AddKeywords` | app.py:79-86 | the keyword file gains `"\n" + text[14:].lower()`, the cache is reloaded and the whole list echoed |
| `Bot.ChatBot.ShowWhitelist` | app.py:89-91 | sends the rendering of the character set of the joined whitelist, without reloading; nothing else changes |
| `Bot.ChatBot.SetWhitelist` | app.py:94-100 | the whitelist file becomes `text[15:]` verbatim, the cache its lines, and it is echoed |
| `Bot.ChatBot.MakeBaseChat` | app.py:103-108 | the base chat becomes the current chat id, its file the id's decimal text, and a confirmation is sent |
| `Bot.ChatBot.HelpMessage` | app.py:142-158 | sends the help text to the calling chat; nothing else changes |
| `Bot.ChatBot.Run` | app.py:177 | runs exactly the handler the command table associates with the command |
| `Bot.ChatBot.CheckMessage` | app.py:111-123 | the loop appends, in keyword order, one send to the base chat per keyword found in the lower-cased text |
| `Bot.ChatBot.ParseCommand` | app.py:161-180 | the table loop with its early return leaves the state `DispatchStep` gives, and keeps caches that agreed with their files in agreement |
| `Bot.ChatBot.TelegramWebhook` | app.py:202-213 | reloads the keywords (inside `get_tg_bot`), then dispatches only a message that has a text |
| `App.GetTextFromMessage` | app.py:56-57 | yields the message text when present and an empty dict otherwise |
| `App.Boot` | app.py:48-50 | the state after module import has consistent caches and an empty outbox |
| `App.ShowKeywordsStep` | app.py:63-66 | the keyword cache becomes the file's lines; files and other caches are untouched |
| `App.KeywordsArg` | app.py:72 | the argument of `/set_keywords` and `/add_keywords` has no upper-case letter |
| `App.SetKeywordsStep` | app.py:69-76 | the keyword file is the lower-cased argument and the cache its lines; whitelist and base chat are untouched |
| `App.AddKeywordsStep` | app.py:79-86 | the new keyword file is the old one followed by "\n" and `text[14:].lower()`, the cache its lines, and the old keywords a prefix of the new list; whitelist and base chat are untouched |
| `App.ShowWhitelistStep` | app.py:89-91 | files and caches are untouched; one message with the rendered character set goes to the calling chat |
| `App.SetWhitelistStep` | app.py:94-100 | for a text of 15 characters or more, the text is its 15-character prefix followed by the new whitelist file; a shorter text (the bare "/set_whitelist") empties the whitelist file and cache; keywords and base chat are untouched |
| `App.MakeBaseChatStep` | app.py:103-108 | the base chat file reads back as the chat id and the cache is that id; keywords and whitelist are untouched |
| `App.HelpStep` | app.py:142-158 | help changes no file and no cache |
| `App.CheckMessageStep` | app.py:111-123 | the matcher changes no file and no cache and only appends to the outbox |
| `AppProperties.FirstMatchIsFirst` | app.py:174-178 | the entry chosen is the first one, in table order, whose literal starts the text |
| `AppProperties.FirstMatchNone` | app.py:174-180 | no command is chosen iff no literal of the table starts the text |
| `AppProperties.FirstMatchFound` | app.py:174-178 | a chosen command's literal starts the text and no earlier entry's does |
| `AppProperties.LiteralsPrefixFree` | app.py:163-171 | no command literal is a prefix of another |
| `AppProperties.CommandsExclusive` | app.py:163-178 | at most one command literal starts any text, so table order never breaks a tie |
| `AppProperties.DispatchExamples` | app.py:174-175 | "/help me" dispatches to `/help`, "/sett" to no command, "/set_keywords\nfoo\nbar" to `/set_keywords` |
| `AppProperties.DispatchUnauthorized` | app.py:175-178 | a command from a sender who fails the gate changes no state and sends nothing |
| `AppProperties.DispatchCommandRepliesOnce` | app.py:175-178 | a gated command runs its handler once: one reply to the calling chat, no keyword forwarding |
| `AppProperties.DispatchFallsThrough` | app.py:174-180 | with no command literal starting the text, dispatch is exactly the keyword matcher |
| `AppProperties.MakeBaseChatRefused` | app.py:169-178 | "/make_this_chat_base" from a non-whitelisted sender changes nothing |
| `AppProperties.GateRejectsAnonymous` | app.py:126-130 | a sender with neither id nor username is not whitelisted |
| `AppProperties.GateAdmitsListedId` | app.py:128-130 | a nonzero id whose decimal text is listed passes the gate |
| `AppProperties.GateAdmitsListedName` | app.py:129-130 | a non-empty username listed verbatim passes the gate |
| `AppProperties.GateOnlyListed` | app.py:127-130 | a sender passes only with a nonzero id or non-empty username, and only if its id's decimal text, its username, or, when one of the two fields is absent, "None" is listed |
| `AppProperties.GateZeroIdRejected` | app.py:130 | id 0 without a username is falsy and fails the gate even if "0" is listed |
| `AppProperties.GateNoneEntryAdmits` | app.py:128-130 | a "None" entry admits a sender with a username and no id, as `str(None)` is "None" |
| `AppProperties.GateNoneEntryAdmitsId` | app.py:128-130 | a "None" entry admits a sender with a nonzero id and no username |
| `AppProperties.GateZeroIdListed` | app.py:127-130 | id 0 is falsy but still compared: with a non-empty username, a listed "0" admits the sender |
| `AppProperties.GateIdExact` | app.py:130 | ids compare as exact decimal text: a listed number admits only that id |
| `AppProperties.RelaysAreRepeats` | app.py:113-123 | the matcher's sends are one identical message to the base chat per matching keyword |
| `AppProperties.CountMatchingZero` | app.py:113-114 | no send is counted iff no keyword occurs in the text |
| `AppProperties.CountMatchingBound` | app.py:113-114 | there are never more sends than keywords |
| `AppProperties.CheckMessageSilent` | app.py:111-123 | a message without any keyword changes nothing and sends nothing |
| `AppProperties.CheckMessageSends` | app.py:111-123 | the matcher appends the relay text to the base chat once per matching keyword, after the old outbox |
| `AppProperties.EmptyKeywordMatchesAll` | app.py:114 | an empty keyword occurs in every text, so every message is forwarded |
| `AppProperties.UppercaseKeywordNeverMatches` | app.py:112-114 | a keyword with an upper-case letter never matches the lower-cased text |
| `AppProperties.RelayLinkExample` | app.py:115-120 | chat "mygroup", message 42 gives the link "https://t.me/mygroup/42" |
| `AppProperties.RelayNoticeMentions` | app.py:121-123 | without a chat username the notice contains the chat id and the lower-cased text |
| `AppProperties.ForwardLinkScenario` | app.py:111-120 | keyword "foo" in a message of public chat "mygroup" sends exactly the link to the base chat |
| `AppProperties.SetKeywordsIdempotent` | app.py:69-76 | setting the keywords twice with one text leaves files and caches as setting them once |
| `AppProperties.SetKeywordsLowercase` | app.py:72-75 | keywords set by `/set_keywords` have no upper-case letter and no line break |
| `AppProperties.FooBarLines` | app.py:24 | the file text "foo\nbar" splits into the keywords "foo" and "bar" and joins back |
| `AppProperties.SetKeywordsScenario` | app.py:69-75 | "/set_keywords\nFOO\nbar" stores "foo\nbar" and the keywords "foo" and "bar" |
| `AppProperties.ShowAfterSetKeywords` | app.py:63-76 | after "/set_keywords\nfoo\nbar", `/show_keywords` sends "foo\nbar" |
| `AppProperties.ShowKeywordsEcho` | app.py:63-66 | the `/show_keywords` message is the keyword file less at most one final newline |
| `AppProperties.AddKeywordsLines` | app.py:79-84 | the new list is every piece of the old file then the new lines; an empty old file yields an empty keyword |
| `AppProperties.AddKeywordsTwice` | app.py:79-86 | for a non-empty argument not ending in a newline, adding it twice appends its lines twice |
| `AppProperties.AddKeywordsAgain` | app.py:79-86 | for every text, a second identical add lengthens the file by "\n" and the argument again, so it is never a no-op, and keeps the first add's keywords as a prefix |
| `AppProperties.AddKeywordsTrailingNewline` | app.py:79-84 | adding "foo\n" a second time adds the keywords "" and "foo", and the empty keyword forwards every message |
| `AppProperties.AddToEmptyFileForwardsAll` | app.py:79-84 | `/add_keywords` on an empty keyword file makes every later message be forwarded |
| `AppProperties.SetWhitelistBareLocksOut` | app.py:94-99 | a whitelisted "/set_whitelist" with nothing after it empties the whitelist file and cache, after which every command from any sender is refused |
| `AppProperties.SetWhitelistVerbatim` | app.py:94-99 | "/set_whitelist\nAlice" stores "Alice" unchanged in case, admitting username "Alice" |
| `AppProperties.ShowWhitelistLosesEntries` | app.py:89-91 | whitelists ["ab"] and ["ba"], and likewise ["ab", "c"] and ["a", "bc"], hand the same character set to the rendering, so a rendering that depends only on the set sends the same message |
| `AppProperties.MakeBaseChatPersists` | app.py:103-108 | after `/make_this_chat_base`, loading the files again designates the same chat |
| `AppProperties.BaseChatAgreesWithFile` | app.py:33-36 | with consistent caches the base chat in memory is the chat its file names |
| `AppProperties.HelpListsEveryCommand` | app.py:142-158 | the help text mentions every literal of the command table |
| `AppProperties.HandlePreservesConsistent` | app.py:63-108 | every handler leaves each cache agreeing with its file |
| `AppProperties.DispatchPreservesConsistent` | app.py:161-180 | dispatch leaves each cache agreeing with its file |
| `AppProperties.WebhookIgnoresTextless` | app.py:207-213 | an update without a text message changes nothing when caches agree with files |
| `Text.Lower` | app.py:72 | lower-casing keeps the length, turns each upper-case letter into its lower-case partner and keeps every other character |
| `Text.ContainsLower` | app.py:112-114 | what a text contains in any casing, its lower-cased form contains lower-cased, so a lower-case keyword matches any casing of itself |
| `Text.LowerIdempotent` | app.py:112 | lower-casing an already lower-cased text changes nothing |
| `Text.SliceFrom` | app.py:72 | `s[n:]` is what follows the first `n` characters, and empty when `s` is shorter |
| `Text.ContainsIff` | app.py:114 | Python's `k in t` holds iff `k` occurs at some position of `t` |
| `Text.SplitAppend` | app.py:82-84 | splitting `a + "\n" + b` splits `a` and `b` separately |
| `Text.JoinSplit` | app.py:65 | joining the pieces of a text with newlines gives the text back |
| `Text.SplitJoin` | app.py:65 | newline-free pieces survive a join followed by a split |
| `Text.LinesAppend` | app.py:82-84 | the lines of `a + "\n" + b` are all pieces of `a` followed by the lines of `b` |
| `Text.JoinLines` | app.py:24 | `splitlines` followed by a join gives the text less at most one final newline |
| `Text.LinesAreClean` | app.py:24 | no line holds a newline and every character of a line comes from the text |
| `Text.ParseIntToString` | app.py:107 | reading back the decimal text `str(n)` gives `n` |
| `Text.IntToStringInjective` | app.py:130 | different integers have different decimal texts |
| `App.UserInWhitelist` | app.py:126-130 | no contract of its own; its behaviour is stated by `GateRejectsAnonymous`, `GateAdmitsListedId`, `GateAdmitsListedName`, `GateOnlyListed`, `GateZeroIdRejected`, `GateZeroIdListed`, `GateNoneEntryAdmits`, `GateNoneEntryAdmitsId` and `GateIdExact` |
| `App.DispatchStep` | app.py:161-180 | no contract of its own; `Bot.ChatBot.ParseCommand` is proved to reach it, and `DispatchUnauthorized`, `DispatchCommandRepliesOnce`, `DispatchFallsThrough` and `DispatchPreservesConsistent` state its behaviour |
| `App.WebhookStep` | app.py:202-213 | no contract of its own; `Bot.ChatBot.TelegramWebhook` is proved to reach it and `WebhookIgnoresTextless` states its textless case |
| `App.Relays` | app.py:113-123 | no contract of its own; `RelaysAreRepeats`, `CountMatchingZero`, `CountMatchingBound` and `CheckMessageSends` state the sends |
| `App.RelayText` | app.py:115-123 | no contract of its own; `RelayLinkExample`, `RelayNoticeMentions` and `ForwardLinkScenario` state the link and the notice |
| `App.FirstMatch` | app.py:163-178 | no contract of its own; the table `CommandTable` holds the seven literals in source order, and `FirstMatchIsFirst`, `FirstMatchNone`, `FirstMatchFound`, `LiteralsPrefixFree` and `CommandsExclusive` state the choice |
| `App.Handle` | app.py:177 | no contract of its own; `HandlePreservesConsistent` and `DispatchCommandRepliesOnce` state its effect, and each handler's step function states its own |
| `App.CharSet` | app.py:90 | no contract of its own; `ShowWhitelistLosesEntries` shows that it forgets the order and the boundaries of the entries |
| `Text.Lines` | app.py:24 | no contract of its own; `LinesAreClean`, `JoinLines`, `LinesAppend` and `LinesAllPieces` state what `splitlines` yields |
| `Text.Join` | app.py:65 | no contract of its own; `JoinSplit`, `SplitJoin` and `JoinLines` state it as the inverse of the split |
| `Text.Contains` | app.py:114 | no contract of its own; `ContainsIff` states it as an occurrence at some position |
| `Text.StartsWith` | app.py:175 | no contract of its own; `PrefixesCompare`, `FirstMatchFound` and `LiteralsPrefixFree` use it |
| `Text.IntToString` | app.py:107 | no contract of its own; `ParseIntToString` and `IntToStringInjective` state that it can be read back and is one-to-one |

## Left out

- The Flask route, the request JSON and the fixed "OK" reply (app.py:202-213) are left out. A webhook update is `Option<Message>`, where `None` is an update without a message. A message without a text is a `Message` whose `text` is `None`.
- A missing `message["chat"]`, or a missing `message_id` when the chat has a username, would raise `KeyError` in Python. The model assumes both fields are present.
- `get_tg_bot` (app.py:183-199) is left out: proxy pools, bot construction and `setWebhook` are network and library calls. Its `load_keywords()` is modelled in `TelegramWebhook`.
- `set_configuration` and the dotenv and environment loading (app.py:39-53) are left out: environment I/O.
- Real files and their I/O errors are left out. Each file is a string that always exists.
- `BASE_CHAT_ID = None` (app.py:15) has no recipient of its own. The constructor holds the empty text in its place until `LoadBaseChat` overwrites it, as the load at app.py:50 does before any request.
- Text.Lower: lower-cases only ASCII letters, not the full Unicode `str.lower`.
- Text.Lines: splits only on `"\n"`. Python's `splitlines` also splits on `"\r"`, `"\r\n"` and other separators.
- App.ShowWhitelistStep: `render` is a parameter, because Python leaves the element order of a printed `set` unspecified. Only the set of characters handed to it is modelled.
- `bot.sendMessage` is an outbox append. Network failures and timeouts are left out.
- Logging calls are left out.
- Races between overlapping requests on the files are left out. The model is sequential.
