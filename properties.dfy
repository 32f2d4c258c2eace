/**
 * What the bot's behaviour amounts to: the dispatcher picks the first matching
 * command and then never runs the keyword matcher, the whitelist gate compares
 * verbatim, the matcher sends once per matching keyword, and each handler
 * changes only its own file and cache.
 */
module AppProperties {
  import opened Wrappers
  import opened Text
  import opened App

  // ---------------------------------------------------------------------------
  // Dispatcher
  // ---------------------------------------------------------------------------

  /** The entry at `i` is chosen when its literal starts the text and no earlier one does. */
  lemma {:induction false} FirstMatchIsFirst(table: seq<(string, Command)>, text: string, i: nat)
    requires i < |table| && StartsWith(text, table[i].0)
    requires forall j :: 0 <= j < i ==> !StartsWith(text, table[j].0)
    ensures FirstMatch(table, text) == Some(table[i].1)
    decreases i
  {
    if i > 0 {
      assert !StartsWith(text, table[0].0);
      FirstMatchIsFirst(table[1..], text, i - 1);
    }
  }

  /** No command is chosen exactly when no literal starts the text. */
  lemma {:induction false} FirstMatchNone(table: seq<(string, Command)>, text: string)
    ensures FirstMatch(table, text) == None <==> forall i :: 0 <= i < |table| ==> !StartsWith(text, table[i].0)
    decreases |table|
  {
    if table != [] {
      FirstMatchNone(table[1..], text);
      if !StartsWith(text, table[0].0) {
        forall i | 1 <= i < |table| ensures table[i].0 == table[1..][i - 1].0 { }
      }
    }
  }

  /** A chosen command is one of the table's, with its literal starting the text, and all earlier entries fail. */
  lemma {:induction false} FirstMatchFound(table: seq<(string, Command)>, text: string, c: Command)
    requires FirstMatch(table, text) == Some(c)
    ensures exists i :: 0 <= i < |table| && table[i].1 == c && StartsWith(text, table[i].0)
                        && forall j :: 0 <= j < i ==> !StartsWith(text, table[j].0)
    decreases |table|
  {
    if !StartsWith(text, table[0].0) {
      FirstMatchFound(table[1..], text, c);
      var i :| 0 <= i < |table[1..]| && table[1..][i].1 == c && StartsWith(text, table[1..][i].0)
               && forall j :: 0 <= j < i ==> !StartsWith(text, table[1..][j].0);
      assert table[i + 1] == table[1..][i];
      forall j | 0 <= j < i + 1 ensures !StartsWith(text, table[j].0) {
        if j > 0 { assert table[j] == table[1..][j - 1]; }
      }
    } else {
      assert table[0].1 == c;
    }
  }

  /** No command literal is a prefix of another one. */
  lemma LiteralsPrefixFree(i: nat, j: nat)
    requires i < |CommandTable| && j < |CommandTable| && i != j
    ensures !StartsWith(CommandTable[j].0, CommandTable[i].0)
  {
    var p, q := CommandTable[i].0, CommandTable[j].0;
    if |p| <= |q| {
      assert p[1] != q[1] || p[2] != q[2] || p[5] != q[5] || p[6] != q[6] || p[7] != q[7] || p[|p| - 1] != q[|p| - 1];
    }
  }

  /** At most one command literal starts any text, so table order never decides a tie. */
  lemma CommandsExclusive(text: string, i: nat, j: nat)
    requires i < |CommandTable| && j < |CommandTable|
    requires StartsWith(text, CommandTable[i].0) && StartsWith(text, CommandTable[j].0)
    ensures i == j
  {
    if i != j {
      if |CommandTable[i].0| <= |CommandTable[j].0| {
        PrefixesCompare(text, CommandTable[i].0, CommandTable[j].0);
        LiteralsPrefixFree(i, j);
      } else {
        PrefixesCompare(text, CommandTable[j].0, CommandTable[i].0);
        LiteralsPrefixFree(j, i);
      }
    }
  }

  /** "/help me" is `/help`; "/sett" is no command; the argument after "/set_keywords" does not matter. */
  lemma DispatchExamples()
    ensures FirstMatch(CommandTable, "/help me") == Some(Help)
    ensures FirstMatch(CommandTable, "/sett") == None
    ensures FirstMatch(CommandTable, "/set_keywords\nfoo\nbar") == Some(SetKeywords)
  {
    var help, sett, setk := "/help me", "/sett", "/set_keywords\nfoo\nbar";
    assert !StartsWith(help, CommandTable[1].0) by { assert help[1] != CommandTable[1].0[1]; }
    assert !StartsWith(help, CommandTable[2].0) by { assert help[1] != CommandTable[2].0[1]; }
    assert !StartsWith(help, CommandTable[4].0) by { assert help[1] != CommandTable[4].0[1]; }
    FirstMatchIsFirst(CommandTable, help, 6);
    assert !StartsWith(sett, CommandTable[6].0) by { assert sett[1] != CommandTable[6].0[1]; }
    FirstMatchNone(CommandTable, sett);
    assert !StartsWith(setk, CommandTable[0].0) by { assert setk[2] != CommandTable[0].0[2]; }
    assert StartsWith(setk, CommandTable[1].0) by { assert setk[..13] == CommandTable[1].0; }
    FirstMatchIsFirst(CommandTable, setk, 1);
  }

  /** A command from a sender outside the whitelist changes nothing and sends nothing. */
  lemma DispatchUnauthorized(s: Store, m: Message, render: set<char> -> string)
    requires FirstMatch(CommandTable, TextOf(m)).Some?
    requires !UserInWhitelist(m.from, s.whitelist)
    ensures DispatchStep(s, m, render) == s
  {
  }

  /**
   * A command from a whitelisted sender runs its handler once: exactly one
   * message is sent, to the chat the command came from, and nothing is
   * forwarded to the base chat.
   */
  lemma DispatchCommandRepliesOnce(s: Store, m: Message, render: set<char> -> string, c: Command)
    requires FirstMatch(CommandTable, TextOf(m)) == Some(c)
    requires UserInWhitelist(m.from, s.whitelist)
    ensures DispatchStep(s, m, render) == Handle(s, c, m.chatId, TextOf(m), render)
    ensures DispatchStep(s, m, render).outbox == s.outbox + [(ById(m.chatId), DispatchStep(s, m, render).outbox[|s.outbox|].1)]
  {
  }

  /** A text that starts with no command literal goes to the keyword matcher. */
  lemma DispatchFallsThrough(s: Store, m: Message, render: set<char> -> string)
    requires forall i :: 0 <= i < |CommandTable| ==> !StartsWith(TextOf(m), CommandTable[i].0)
    ensures DispatchStep(s, m, render) == CheckMessageStep(s, m)
  {
    FirstMatchNone(CommandTable, TextOf(m));
  }

  /** A sender outside the whitelist sending "/make_this_chat_base" changes nothing. */
  lemma MakeBaseChatRefused(s: Store, m: Message, render: set<char> -> string)
    requires TextOf(m) == "/make_this_chat_base"
    requires !UserInWhitelist(m.from, s.whitelist)
    ensures DispatchStep(s, m, render) == s
  {
    var t := TextOf(m);
    assert !StartsWith(t, CommandTable[0].0) by { assert t[1] != CommandTable[0].0[1]; }
    assert !StartsWith(t, CommandTable[1].0) by { assert t[1] != CommandTable[1].0[1]; }
    assert !StartsWith(t, CommandTable[2].0) by { assert t[1] != CommandTable[2].0[1]; }
    assert !StartsWith(t, CommandTable[3].0) by { assert t[1] != CommandTable[3].0[1]; }
    assert !StartsWith(t, CommandTable[4].0) by { assert t[1] != CommandTable[4].0[1]; }
    assert StartsWith(t, CommandTable[5].0) by { assert t[..|t|] == t; }
    FirstMatchIsFirst(CommandTable, t, 5);
  }

  // ---------------------------------------------------------------------------
  // Whitelist gate
  // ---------------------------------------------------------------------------

  /** A message without id and username is never whitelisted. */
  lemma GateRejectsAnonymous(u: Sender, whitelist: seq<string>)
    requires u.id.None? && u.username.None?
    ensures !UserInWhitelist(u, whitelist)
  {
  }

  /** A nonzero id whose decimal form is listed passes, whatever the username. */
  lemma GateAdmitsListedId(u: Sender, whitelist: seq<string>)
    requires u.id.Some? && u.id.value != 0 && IntToString(u.id.value) in whitelist
    ensures UserInWhitelist(u, whitelist)
  {
  }

  /** A non-empty username that is listed verbatim passes. */
  lemma GateAdmitsListedName(u: Sender, whitelist: seq<string>)
    requires u.username.Some? && u.username.value != "" && u.username.value in whitelist
    ensures UserInWhitelist(u, whitelist)
  {
  }

  /**
   * Only a sender with a truthy id or username passes, and then only through
   * a listed id, a listed username, or a listed "None" standing for whichever
   * of the two is absent (Python's `str(None)`).
   */
  lemma GateOnlyListed(u: Sender, whitelist: seq<string>)
    requires UserInWhitelist(u, whitelist)
    ensures (u.id.Some? && u.id.value != 0) || (u.username.Some? && u.username.value != "")
    ensures || (u.id.Some? && IntToString(u.id.value) in whitelist)
            || (u.username.Some? && u.username.value in whitelist)
            || ((u.id.None? || u.username.None?) && "None" in whitelist)
  {
  }

  /** Id 0 with no username counts as no identity, even if "0" is listed. */
  lemma GateZeroIdRejected(u: Sender, whitelist: seq<string>)
    requires u.id == Some(0) && (u.username.None? || u.username == Some(""))
    ensures !UserInWhitelist(u, whitelist)
  {
  }

  /** An entry "None" admits any sender with a username but no id (Python's `str(None)`). */
  lemma GateNoneEntryAdmits(u: Sender, whitelist: seq<string>)
    requires u.id.None? && u.username.Some? && u.username.value != ""
    requires "None" in whitelist
    ensures UserInWhitelist(u, whitelist)
  {
  }

  /** An entry "None" admits any sender with a nonzero id but no username. */
  lemma GateNoneEntryAdmitsId(u: Sender, whitelist: seq<string>)
    requires u.id.Some? && u.id.value != 0 && u.username.None?
    requires "None" in whitelist
    ensures UserInWhitelist(u, whitelist)
  {
  }

  /** Id 0 is falsy but still compared: with a non-empty username, a listed "0" admits. */
  lemma GateZeroIdListed(u: Sender, whitelist: seq<string>)
    requires u.id == Some(0) && u.username.Some? && u.username.value != ""
    requires "0" in whitelist
    ensures UserInWhitelist(u, whitelist)
  {
    assert IntToString(0) == "0";
  }

  /**
   * Ids compare as text, exactly: a sender known only by id `n` passes a
   * whitelist holding a single number `k` only when `k == n`.
   */
  lemma GateIdExact(n: int, k: int)
    requires UserInWhitelist(Sender(Some(n), None), [IntToString(k)])
    ensures n == k
  {
    var d := IntToString(k);
    assert d != "None" by {
      assert IsDigit(d[|d| - 1]);
      assert !IsDigit("None"[3]);
    }
    assert IntToString(n) == d;
    IntToStringInjective(n, k);
  }

  // ---------------------------------------------------------------------------
  // Keyword matcher
  // ---------------------------------------------------------------------------

  /**
   * The matcher sends one identical message to the base chat for each
   * keyword found in the lower-cased text.
   */
  lemma {:induction false} RelaysAreRepeats(keywords: seq<string>, base: Recipient, m: Message)
    ensures Relays(keywords, base, m) == Repeat((base, RelayText(m)), CountMatching(keywords, Lower(TextOf(m))))
    decreases |keywords|
  {
    if keywords != [] {
      RelaysAreRepeats(keywords[..|keywords| - 1], base, m);
    }
  }

  /** Nothing is counted exactly when no keyword is found in the text. */
  lemma {:induction false} CountMatchingZero(keywords: seq<string>, t: string)
    ensures CountMatching(keywords, t) == 0 <==> forall k :: k in keywords ==> !Contains(t, k)
    decreases |keywords|
  {
    if keywords != [] {
      var init := keywords[..|keywords| - 1];
      var last := keywords[|keywords| - 1];
      CountMatchingZero(init, t);
      assert keywords == init + [last];
      if CountMatching(keywords, t) == 0 {
        forall k | k in keywords ensures !Contains(t, k) {
          if k != last { assert k in init; }
        }
      } else if !Contains(t, last) {
        assert CountMatching(init, t) != 0;
        var k :| k in init && Contains(t, k);
        assert k in keywords;
      } else {
        assert last in keywords;
      }
    }
  }

  /** The number of matches never exceeds the number of keywords. */
  lemma {:induction false} CountMatchingBound(keywords: seq<string>, t: string)
    ensures CountMatching(keywords, t) <= |keywords|
    decreases |keywords|
  {
    if keywords != [] {
      CountMatchingBound(keywords[..|keywords| - 1], t);
    }
  }

  /** A message with no keyword in it is not forwarded and changes nothing. */
  lemma CheckMessageSilent(s: Store, m: Message)
    requires forall k :: k in s.keywords ==> !Contains(Lower(TextOf(m)), k)
    ensures CheckMessageStep(s, m) == s
  {
    CountMatchingZero(s.keywords, Lower(TextOf(m)));
    RelaysAreRepeats(s.keywords, s.baseChat, m);
  }

  /** Every forwarded message goes to the base chat and is the message's relay text. */
  lemma CheckMessageSends(s: Store, m: Message)
    ensures CheckMessageStep(s, m).outbox
            == s.outbox + Repeat((s.baseChat, RelayText(m)), CountMatching(s.keywords, Lower(TextOf(m))))
  {
    RelaysAreRepeats(s.keywords, s.baseChat, m);
  }

  /** An empty keyword is found in every text, so every message is forwarded. */
  lemma EmptyKeywordMatchesAll(keywords: seq<string>, t: string)
    requires "" in keywords
    ensures CountMatching(keywords, t) > 0
  {
    CountMatchingZero(keywords, t);
    assert Contains(t, "");
  }

  /** A keyword with an upper-case letter never matches: the text is lower-cased first. */
  lemma UppercaseKeywordNeverMatches(k: string, t: string, j: nat)
    requires j < |k| && IsUpper(k[j])
    ensures !Contains(Lower(t), k)
  {
    if Contains(Lower(t), k) {
      ContainsLowered(t, k, j);
    }
  }

  /** A chat with a public username gets a link "https://t.me/<username>/<message id>". */
  lemma RelayLinkExample(m: Message)
    requires m.chatUsername == Some("mygroup") && m.messageId == 42
    ensures RelayText(m) == "https://t.me/mygroup/42"
  {
    assert IntToString(42) == "42";
  }

  /** Without a public username the notice holds the chat id and the lower-cased text. */
  lemma RelayNoticeMentions(m: Message)
    requires m.chatUsername.None?
    ensures Contains(RelayText(m), IntToString(m.chatId))
    ensures Contains(RelayText(m), Lower(TextOf(m)))
  {
    ContainsInfix(NoticeHead, IntToString(m.chatId), NoticeMiddle + Lower(TextOf(m)));
    assert RelayText(m) == NoticeHead + IntToString(m.chatId) + (NoticeMiddle + Lower(TextOf(m)));
    ContainsInfix(NoticeHead + IntToString(m.chatId) + NoticeMiddle, Lower(TextOf(m)), "");
    assert RelayText(m) == NoticeHead + IntToString(m.chatId) + NoticeMiddle + Lower(TextOf(m)) + "";
  }

  /** A group message containing "foo", keyword "foo", public chat "mygroup", message 42. */
  lemma ForwardLinkScenario(s: Store, m: Message)
    requires s.keywords == ["foo"]
    requires m.chatUsername == Some("mygroup") && m.messageId == 42
    requires Contains(Lower(TextOf(m)), "foo")
    ensures CheckMessageStep(s, m).outbox == s.outbox + [(s.baseChat, "https://t.me/mygroup/42")]
  {
    RelayLinkExample(m);
    assert ["foo"][..0] == [];
  }

  // ---------------------------------------------------------------------------
  // Handlers
  // ---------------------------------------------------------------------------

  /** Setting the keywords twice with one text leaves the files and caches as setting them once. */
  lemma SetKeywordsIdempotent(s: Store, chatId: int, text: string)
    ensures Config(SetKeywordsStep(SetKeywordsStep(s, chatId, text), chatId, text))
            == Config(SetKeywordsStep(s, chatId, text))
  {
  }

  /** Keywords set by `/set_keywords` contain no upper-case letter and no line break. */
  lemma SetKeywordsLowercase(s: Store, chatId: int, text: string)
    ensures forall k :: k in SetKeywordsStep(s, chatId, text).keywords ==> NoNewline(k)
    ensures forall k, i :: k in SetKeywordsStep(s, chatId, text).keywords && 0 <= i < |k| ==> !IsUpper(k[i])
  {
    var r := SetKeywordsStep(s, chatId, text);
    LinesAreClean(r.keywordsFile);
    forall k, i | k in r.keywords && 0 <= i < |k| ensures !IsUpper(k[i]) {
      assert k[i] in k;
      assert k[i] in r.keywordsFile;
    }
  }

  /** The file "foo\nbar" holds the two keywords "foo" and "bar". */
  lemma FooBarLines()
    ensures Lines("foo\nbar") == ["foo", "bar"]
    ensures Join(["foo", "bar"]) == "foo\nbar"
  {
    assert NoNewline("foo") && NoNewline("bar");
    SplitJoin(["foo", "bar"]);
    assert Join(["foo", "bar"]) == "foo\nbar";
  }

  /** "/set_keywords\nFOO\nbar" stores the lower-cased "foo\nbar": the keywords become "foo" and "bar". */
  lemma SetKeywordsScenario(s: Store, chatId: int)
    ensures SetKeywordsStep(s, chatId, "/set_keywords\nFOO\nbar").keywordsFile == "foo\nbar"
    ensures SetKeywordsStep(s, chatId, "/set_keywords\nFOO\nbar").keywords == ["foo", "bar"]
  {
    var arg := SliceFrom("/set_keywords\nFOO\nbar", 14);
    assert arg == "FOO\nbar";
    var low := Lower(arg);
    assert low[0] == 'f' && low[1] == 'o' && low[2] == 'o';
    assert low == "foo\nbar";
    FooBarLines();
  }

  /** After "/set_keywords\nfoo\nbar", `/show_keywords` sends "foo\nbar" back. */
  lemma ShowAfterSetKeywords(s: Store, chatId: int)
    ensures ShowKeywordsStep(SetKeywordsStep(s, chatId, "/set_keywords\nfoo\nbar"), chatId).outbox[|s.outbox| + 1]
            == (ById(chatId), "foo\nbar")
  {
    var arg := SliceFrom("/set_keywords\nfoo\nbar", 14);
    assert arg == "foo\nbar";
    assert Lower(arg) == arg;
    FooBarLines();
  }

  /** The message of `/show_keywords` is the keyword file, less at most one final line break. */
  lemma ShowKeywordsEcho(s: Store, chatId: int)
    ensures var sent := ShowKeywordsStep(s, chatId).outbox[|s.outbox|].1;
            sent == s.keywordsFile || sent + "\n" == s.keywordsFile
  {
    JoinLines(s.keywordsFile);
  }

  /**
   * `/add_keywords` keeps every piece of the old file, then adds the new
   * lines; an empty old file or one ending in a line break gains an empty
   * keyword.
   */
  lemma AddKeywordsLines(s: Store, chatId: int, text: string)
    ensures AddKeywordsStep(s, chatId, text).keywords == Split(s.keywordsFile) + Lines(KeywordsArg(text))
    ensures s.keywordsFile == "" ==> "" in AddKeywordsStep(s, chatId, text).keywords
  {
    LinesAppend(s.keywordsFile, KeywordsArg(text));
    assert Split("") == [""];
    if s.keywordsFile == "" {
      assert AddKeywordsStep(s, chatId, text).keywords[0] == "";
    }
  }

  /**
   * Adding the same non-empty keywords twice lists them twice: the second
   * call appends the same lines again (`add_keywords` is not idempotent).
   */
  lemma AddKeywordsTwice(s: Store, chatId: int, text: string)
    requires KeywordsArg(text) != "" && KeywordsArg(text)[|KeywordsArg(text)| - 1] != '\n'
    ensures var once := AddKeywordsStep(s, chatId, text);
            var twice := AddKeywordsStep(once, chatId, text);
            && twice.keywords == once.keywords + Lines(KeywordsArg(text))
            && |twice.keywords| > |once.keywords|
  {
    var once := AddKeywordsStep(s, chatId, text);
    LinesAppendTwice(s.keywordsFile, KeywordsArg(text));
  }

  /**
   * Whatever the argument, even an empty one, every `/add_keywords` lengthens
   * the keyword file by "\n" and the argument: a repeated add is never a no-op.
   */
  lemma AddKeywordsAgain(s: Store, chatId: int, text: string)
    ensures var once := AddKeywordsStep(s, chatId, text);
            var twice := AddKeywordsStep(once, chatId, text);
            && twice.keywordsFile == once.keywordsFile + "\n" + KeywordsArg(text)
            && twice.keywordsFile != once.keywordsFile
            && once.keywords <= twice.keywords
  {
    var once := AddKeywordsStep(s, chatId, text);
    var twice := AddKeywordsStep(once, chatId, text);
    assert |twice.keywordsFile| > |once.keywordsFile|;
  }

  /**
   * An argument ending in "\n" leaves an empty piece behind: adding "foo\n"
   * a second time adds the empty keyword as well as "foo", and the empty
   * keyword forwards every later message.
   */
  lemma AddKeywordsTrailingNewline(s: Store, chatId: int, m: Message)
    ensures var text := "/add_keywords\nfoo\n";
            var once := AddKeywordsStep(s, chatId, text);
            var twice := AddKeywordsStep(once, chatId, text);
            && twice.keywords == once.keywords + ["", "foo"]
            && CountMatching(twice.keywords, Lower(TextOf(m))) > 0
  {
    var text := "/add_keywords\nfoo\n";
    assert SliceFrom(text, 14) == "foo\n";
    assert Lower("foo\n") == "foo\n";
    assert KeywordsArg(text) == "foo\n";
    LinesAppendTwiceNewline(s.keywordsFile);
    var twice := AddKeywordsStep(AddKeywordsStep(s, chatId, text), chatId, text);
    assert "" in twice.keywords by {
      assert twice.keywords[|twice.keywords| - 2] == "";
    }
    EmptyKeywordMatchesAll(twice.keywords, Lower(TextOf(m)));
  }

  /** The lines after appending "\nfoo\n" once and twice. */
  lemma LinesAppendTwiceNewline(f: string)
    ensures Lines(f + "\n" + "foo\n" + "\n" + "foo\n") == Lines(f + "\n" + "foo\n") + ["", "foo"]
  {
    var x := "foo\n";
    var g := f + "\n" + x;
    assert "foo" + "\n" + "" == x;
    SplitAppend("foo", "");
    assert NoNewline("foo");
    SplitSingle("foo");
    assert Split(x) == ["foo", ""];
    assert Lines(x) == ["foo"];
    LinesAppend(f, x);
    LinesAppend(g, x);
    SplitAppend(f, x);
    var p := Split(f);
    assert Lines(g) == p + ["foo"];
    assert Lines(g + "\n" + x) == (p + ["foo", ""]) + ["foo"];
  }

  /** Two appends of the same line-free text add its lines twice. */
  lemma LinesAppendTwice(f: string, x: string)
    requires x != "" && x[|x| - 1] != '\n'
    ensures Lines(f + "\n" + x + "\n" + x) == Lines(f + "\n" + x) + Lines(x)
    ensures |Lines(x)| > 0
  {
    var g := f + "\n" + x;
    LinesAppend(f, x);
    LinesAppend(g, x);
    SplitAppend(f, x);
    LinesAllPieces(x);
    var p, l := Split(f), Lines(x);
    assert Lines(g) == p + l;
    assert Lines(g + "\n" + x) == (p + l) + l;
  }

  /** `/add_keywords` on an empty keyword file makes every later message be forwarded. */
  lemma AddToEmptyFileForwardsAll(s: Store, chatId: int, text: string, m: Message)
    requires s.keywordsFile == ""
    ensures CountMatching(AddKeywordsStep(s, chatId, text).keywords, Lower(TextOf(m))) > 0
  {
    AddKeywordsLines(s, chatId, text);
    EmptyKeywordMatchesAll(AddKeywordsStep(s, chatId, text).keywords, Lower(TextOf(m)));
  }

  /**
   * "/set_whitelist" with nothing after it empties the whitelist file and
   * cache: from then on no sender passes the gate and every command is refused.
   */
  lemma SetWhitelistBareLocksOut(s: Store, m: Message, render: set<char> -> string, next: Message)
    requires TextOf(m) == "/set_whitelist" && UserInWhitelist(m.from, s.whitelist)
    requires FirstMatch(CommandTable, TextOf(next)).Some?
    ensures var r := DispatchStep(s, m, render);
            && r.whitelistFile == "" && r.whitelist == []
            && DispatchStep(r, next, render) == r
  {
    BareSetWhitelistIsCommand();
  }

  /** The bare "/set_whitelist" is the `/set_whitelist` command. */
  lemma BareSetWhitelistIsCommand()
    ensures FirstMatch(CommandTable, "/set_whitelist") == Some(SetWhitelist)
  {
    var t := "/set_whitelist";
    assert !StartsWith(t, CommandTable[0].0) by { assert t[2] != CommandTable[0].0[2]; }
    assert !StartsWith(t, CommandTable[1].0) by { assert t[5] != CommandTable[1].0[5]; }
    assert !StartsWith(t, CommandTable[2].0) by { assert t[1] != CommandTable[2].0[1]; }
    assert !StartsWith(t, CommandTable[3].0) by { assert t[2] != CommandTable[3].0[2]; }
    assert StartsWith(t, CommandTable[4].0) by { assert t[..|t|] == t; }
    FirstMatchIsFirst(CommandTable, t, 4);
  }

  /** `/set_whitelist` keeps the case of what it stores: "Alice" set this way admits the username "Alice". */
  lemma SetWhitelistVerbatim(s: Store, chatId: int)
    ensures SetWhitelistStep(s, chatId, "/set_whitelist\nAlice").whitelist == ["Alice"]
    ensures UserInWhitelist(Sender(None, Some("Alice")), SetWhitelistStep(s, chatId, "/set_whitelist\nAlice").whitelist)
  {
    assert SliceFrom("/set_whitelist\nAlice", 15) == "Alice";
    SplitSingle("Alice");
  }

  /**
   * `show_whitelist` sends only the set of characters: the whitelists
   * ["ab"] and ["ba"] hand the same character set to the rendering, and so
   * do ["ab", "c"] and ["a", "bc"]: neither order nor entry boundaries survive.
   */
  lemma ShowWhitelistLosesEntries(s: Store, chatId: int, render: set<char> -> string)
    ensures ShowWhitelistStep(s.(whitelist := ["ab"]), chatId, render).outbox
            == ShowWhitelistStep(s.(whitelist := ["ba"]), chatId, render).outbox
    ensures ShowWhitelistStep(s.(whitelist := ["ab", "c"]), chatId, render).outbox
            == ShowWhitelistStep(s.(whitelist := ["a", "bc"]), chatId, render).outbox
  {
    assert CharSet("ab") == CharSet("ba") by {
      assert forall c :: c in "ab" <==> c in "ba";
    }
    assert Join(["ab", "c"]) == "ab\nc";
    assert Join(["a", "bc"]) == "a\nbc";
    assert CharSet("ab\nc") == CharSet("a\nbc") by {
      assert forall c :: c in "ab\nc" <==> c in "a\nbc";
    }
  }

  /** After `/make_this_chat_base` a restart from the files designates the same chat. */
  lemma MakeBaseChatPersists(s: Store, chatId: int)
    ensures var r := MakeBaseChatStep(s, chatId);
            ChatOf(Boot(r.keywordsFile, r.whitelistFile, r.baseChatFile).baseChat) == Some(chatId)
  {
  }

  /** Under consistency the base chat in memory is the one its file names. */
  lemma BaseChatAgreesWithFile(s: Store)
    requires Consistent(s)
    ensures ChatOf(s.baseChat) == ParseInt(s.baseChatFile)
  {
    if s.baseChat.ById? {
      ParseIntToString(s.baseChat.id);
    }
  }

  /** `/help` lists every command of the table. */
  lemma HelpListsEveryCommand(i: nat)
    requires i < |CommandTable|
    ensures Contains(HelpText(), CommandTable[i].0)
  {
    assert CommandTable[i].0 == HelpEntries[i].0;
    HelpBodyMentions(HelpEntries, i);
    ContainsWithin(HelpHeader, HelpBody(HelpEntries), "", CommandTable[i].0);
    assert HelpText() == HelpHeader + HelpBody(HelpEntries) + "";
  }

  lemma {:induction false} HelpBodyMentions(entries: seq<(string, string)>, i: nat)
    requires i < |entries|
    ensures Contains(HelpBody(entries), entries[i].0)
    decreases i
  {
    var head := entries[0].0 + ": " + entries[0].1 + "\n\n";
    assert HelpBody(entries) == head + HelpBody(entries[1..]);
    if i == 0 {
      ContainsInfix("", entries[0].0, ": " + entries[0].1 + "\n\n" + HelpBody(entries[1..]));
      assert "" + entries[0].0 + (": " + entries[0].1 + "\n\n" + HelpBody(entries[1..])) == HelpBody(entries);
    } else {
      HelpBodyMentions(entries[1..], i - 1);
      ContainsWithin(head, HelpBody(entries[1..]), "", entries[i].0);
      assert head + HelpBody(entries[1..]) + "" == HelpBody(entries);
    }
  }

  // ---------------------------------------------------------------------------
  // Consistency of caches and files
  // ---------------------------------------------------------------------------

  /** Every handler leaves each cache agreeing with its file. */
  lemma HandlePreservesConsistent(s: Store, c: Command, chatId: int, text: string, render: set<char> -> string)
    requires Consistent(s)
    ensures Consistent(Handle(s, c, chatId, text, render))
  {
  }

  lemma DispatchPreservesConsistent(s: Store, m: Message, render: set<char> -> string)
    requires Consistent(s)
    ensures Consistent(DispatchStep(s, m, render))
  {
    match FirstMatch(CommandTable, TextOf(m))
    case Some(c) => HandlePreservesConsistent(s, c, m.chatId, TextOf(m), render);
    case None =>
  }

  /** With consistent caches, a webhook request without a text message changes nothing. */
  lemma WebhookIgnoresTextless(s: Store, update: Option<Message>, render: set<char> -> string)
    requires Consistent(s)
    requires update.None? || update.value.text.None?
    ensures WebhookStep(s, update, render) == s
  {
  }
}
