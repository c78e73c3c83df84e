/** Printing a command line so that a POSIX shell reads back exactly the given arguments. */
module Shell {
  import opened Wrappers

  // ---- the printer ----

  predicate Safe(c: char) {
    || 'a' <= c <= 'z' || 'A' <= c <= 'Z' || '0' <= c <= '9'
    || c == '_' || c == '.' || c == '/' || c == ':' || c == '@' || c == '+' || c == '-'
  }

  // strings.ReplaceAll for a one-character pattern.
  function ReplaceAll(s: string, c: char, by_: string): string {
    if s == "" then ""
    else (if s[0] == c then by_ else [s[0]]) + ReplaceAll(s[1..], c, by_)
  }

  const QUOTED_QUOTE := "'\"'\"'"

  function CommandArg(arg: string): string {
    if arg != "" && forall i :: 0 <= i < |arg| ==> Safe(arg[i]) then arg
    else "'" + ReplaceAll(arg, '\'', QUOTED_QUOTE) + "'"
  }

  // Only letters, digits and _./:@+- go unquoted, here by their code points.
  lemma UnquotedExactly(arg: string)
    ensures CommandArg(arg) == arg <==>
            arg != "" && forall i :: 0 <= i < |arg| ==>
              var c := arg[i] as int;
              c == 43 || 45 <= c <= 58 || 64 <= c <= 90 || c == 95 || 97 <= c <= 122
    ensures CommandArg(arg) != arg ==>
              |CommandArg(arg)| >= 2 && CommandArg(arg)[0] == '\'' && CommandArg(arg)[|CommandArg(arg)|-1] == '\''
  {
    if arg == "" || exists i :: 0 <= i < |arg| && !Safe(arg[i]) {
      ReplacedLonger(arg);
    }
  }

  lemma {:induction false} ReplacedLonger(s: string)
    ensures |ReplaceAll(s, '\'', QUOTED_QUOTE)| >= |s|
  {
    if s != "" {
      ReplacedLonger(s[1..]);
    }
  }

  function Join(parts: seq<string>): string {
    if parts == [] then ""
    else if |parts| == 1 then parts[0]
    else parts[0] + " " + Join(parts[1..])
  }

  function QuoteAll(args: seq<string>): seq<string> {
    if args == [] then [] else [CommandArg(args[0])] + QuoteAll(args[1..])
  }

  // The arguments the printed command stands for.
  function Argv(profile: string, account: string, args: seq<string>): seq<string> {
    ["tinvest"]
    + (if profile != "" then ["--profile", profile] else [])
    + (if account != "" then ["--account", account] else [])
    + args
  }

  method ScopedBrokerCommand(profile: string, account: string, args: seq<string>) returns (command: string)
    ensures command == Join(QuoteAll(Argv(profile, account, args)))
  {
    var parts := ["tinvest"];
    ghost var argv := ["tinvest"];
    PlainWords();
    if profile != "" {
      parts := parts + ["--profile", CommandArg(profile)];
      QuoteAllPair(argv, "--profile", profile);
      argv := argv + ["--profile", profile];
    }
    if account != "" {
      parts := parts + ["--account", CommandArg(account)];
      QuoteAllPair(argv, "--account", account);
      argv := argv + ["--account", account];
    }
    assert argv + args[..0] == argv;
    for i := 0 to |args|
      invariant parts == QuoteAll(argv + args[..i])
    {
      parts := parts + [CommandArg(args[i])];
      QuoteAllSnoc(argv + args[..i], args[i]);
      assert argv + args[..i] + [args[i]] == argv + args[..i+1];
    }
    assert argv + args[..|args|] == Argv(profile, account, args);
    command := Join(parts);
  }

  lemma {:induction false} QuoteAllSnoc(a: seq<string>, x: string)
    ensures QuoteAll(a + [x]) == QuoteAll(a) + [CommandArg(x)]
  {
    if a == [] {
      assert a + [x] == [x];
    } else {
      assert (a + [x])[1..] == a[1..] + [x];
      QuoteAllSnoc(a[1..], x);
    }
  }

  lemma QuoteAllPair(a: seq<string>, x: string, y: string)
    ensures QuoteAll(a + [x, y]) == QuoteAll(a) + [CommandArg(x), CommandArg(y)]
  {
    QuoteAllSnoc(a, x);
    QuoteAllSnoc(a + [x], y);
    assert a + [x, y] == a + [x] + [y];
  }

  lemma PlainWords()
    ensures QuoteAll(["tinvest"]) == ["tinvest"]
    ensures CommandArg("--profile") == "--profile" && CommandArg("--account") == "--account"
  {
    SafeIsPlain("tinvest");
    SafeIsPlain("--profile");
    SafeIsPlain("--account");
    QuoteAllSnoc([], "tinvest");
  }

  lemma SafeIsPlain(s: string)
    requires s != "" && forall i :: 0 <= i < |s| ==> Safe(s[i])
    ensures CommandArg(s) == s
  {
  }

  // ---- the shell's side: sections 2.2.2, 2.2.3 and 2.3 of the POSIX Shell Command Language ----

  datatype Mode = Bare | Single | Double

  // The scanner between two characters: the words finished so far, and the word being
  // read, None between words.
  datatype Scan = Scan(words: seq<string>, word: Option<string>, mode: Mode)

  predicate Blank(c: char) { c == ' ' || c == '\t' }

  // Characters that, unquoted, end the simple command, start an expansion, a pattern or
  // a comment, or escape the next character. Text containing one of them unquoted is
  // outside the plain words this scanner reads.
  predicate Special(c: char) {
    || c == '|' || c == '&' || c == ';' || c == '<' || c == '>' || c == '(' || c == ')' || c == '$' || c == '`'
    || c == '\\' || c == '\n' || c == '*' || c == '?' || c == '[' || c == ']' || c == '{' || c == '}' || c == '#'
    || c == '~' || c == '=' || c == '%' || c == '!'
  }

  // Within double quotes these keep their special meaning.
  predicate SpecialInDouble(c: char) {
    c == '$' || c == '`' || c == '\\' || c == '!'
  }

  function Grow(w: Option<string>, c: char): Option<string> {
    Some((if w.Some? then w.value else "") + [c])
  }

  // One character; None when the text is not made of plain and quoted words only.
  function Feed(s: Scan, c: char): Option<Scan> {
    if c == '\0' then None
    else
      match s.mode
      case Single =>
        if c == '\'' then Some(s.(mode := Bare)) else Some(s.(word := Grow(s.word, c)))
      case Double =>
        if c == '"' then Some(s.(mode := Bare))
        else if SpecialInDouble(c) then None
        else Some(s.(word := Grow(s.word, c)))
      case Bare =>
        if c == '\'' then Some(s.(mode := Single, word := Some(if s.word.Some? then s.word.value else "")))
        else if c == '"' then Some(s.(mode := Double, word := Some(if s.word.Some? then s.word.value else "")))
        else if Blank(c) then Some(if s.word.Some? then Scan(s.words + [s.word.value], None, Bare) else s)
        else if Special(c) then None
        else Some(s.(word := Grow(s.word, c)))
  }

  function Feeds(s: Scan, text: string): Option<Scan>
    decreases |text|
  {
    if text == "" then Some(s)
    else
      var next := Feed(s, text[0]);
      if next.None? then None else Feeds(next.value, text[1..])
  }

  // The words of a whole line; None when a quote is left open or the line holds anything
  // but words.
  function Tokens(line: string): Option<seq<string>> {
    var s := Feeds(Scan([], None, Bare), line);
    if s.None? || !s.value.mode.Bare? then None
    else Some(s.value.words + (if s.value.word.Some? then [s.value.word.value] else []))
  }

  // ---- the printer's inverse ----

  lemma {:induction false} FeedsConcat(s: Scan, a: string, b: string)
    ensures Feeds(s, a + b) == if Feeds(s, a).None? then None else Feeds(Feeds(s, a).value, b)
    decreases |a|
  {
    if a == "" {
      assert a + b == b;
    } else {
      assert (a + b)[1..] == a[1..] + b;
      var next := Feed(s, a[0]);
      if next.Some? {
        FeedsConcat(next.value, a[1..], b);
      }
    }
  }

  predicate NoNul(s: string) { forall i :: 0 <= i < |s| ==> s[i] != '\0' }

  lemma {:induction false} FeedsSafe(s: Scan, arg: string)
    requires s.mode.Bare? && arg != "" && forall i :: 0 <= i < |arg| ==> Safe(arg[i])
    ensures Feeds(s, arg) == Some(s.(word := Some((if s.word.Some? then s.word.value else "") + arg)))
    decreases |arg|
  {
    var next := s.(word := Grow(s.word, arg[0]));
    assert Safe(arg[0]) && Feed(s, arg[0]) == Some(next);
    assert arg == [arg[0]] + arg[1..];
    if |arg| > 1 {
      FeedsSafe(next, arg[1..]);
      assert next.word.value + arg[1..] == (if s.word.Some? then s.word.value else "") + arg;
    } else {
      assert arg[1..] == "" && [arg[0]] == arg;
    }
  }

  // Inside single quotes a text with its quotes replaced reads back as the text.
  lemma {:induction false} FeedsReplaced(words: seq<string>, w: string, arg: string)
    requires NoNul(arg)
    ensures Feeds(Scan(words, Some(w), Single), ReplaceAll(arg, '\'', QUOTED_QUOTE)) ==
            Some(Scan(words, Some(w + arg), Single))
    decreases |arg|
  {
    if arg == "" {
      assert w + arg == w;
    } else {
      var c, rest := arg[0], arg[1..];
      var s := Scan(words, Some(w), Single);
      var piece := if c == '\'' then QUOTED_QUOTE else [c];
      if c == '\'' {
        FeedsQuotedQuote(words, w);
      } else {
        assert Feeds(s, [c]) == Some(Scan(words, Some(w + [c]), Single)) by {
          assert [c][1..] == "";
        }
      }
      FeedsConcat(s, piece, ReplaceAll(rest, '\'', QUOTED_QUOTE));
      FeedsReplaced(words, w + [c], rest);
      assert w + [c] + rest == w + arg;
    }
  }

  lemma FeedsQuotedQuote(words: seq<string>, w: string)
    ensures Feeds(Scan(words, Some(w), Single), QUOTED_QUOTE) == Some(Scan(words, Some(w + ['\'']), Single))
  {
    var bare, open, inside :=
      Scan(words, Some(w), Bare), Scan(words, Some(w), Double), Scan(words, Some(w + ['\'']), Double);
    var shut, single := Scan(words, Some(w + ['\'']), Bare), Scan(words, Some(w + ['\'']), Single);
    OneChar(shut, '\'', "", single);
    OneChar(inside, '"', "'", shut);
    OneChar(open, '\'', "\"'", inside);
    OneChar(bare, '"', "'\"'", open);
    OneChar(Scan(words, Some(w), Single), '\'', "\"'\"'", bare);
  }

  lemma OneChar(s: Scan, c: char, rest: string, next: Scan)
    requires Feed(s, c) == Some(next)
    ensures Feeds(s, [c] + rest) == Feeds(next, rest)
  {
    assert ([c] + rest)[1..] == rest;
  }

  // A printed argument is exactly one word, whatever characters it holds.
  lemma FeedsArg(words: seq<string>, arg: string)
    requires NoNul(arg)
    ensures Feeds(Scan(words, None, Bare), CommandArg(arg)) == Some(Scan(words, Some(arg), Bare))
  {
    if arg != "" && forall i :: 0 <= i < |arg| ==> Safe(arg[i]) {
      FeedsSafe(Scan(words, None, Bare), arg);
      assert "" + arg == arg;
    } else {
      var s := Scan(words, None, Bare);
      var inner := ReplaceAll(arg, '\'', QUOTED_QUOTE);
      FeedsConcat(s, "'" + inner, "'");
      FeedsConcat(s, "'", inner);
      assert "'"[1..] == "";
      assert Feeds(s, "'") == Some(Scan(words, Some(""), Single));
      FeedsReplaced(words, "", arg);
      assert "" + arg == arg;
      assert Feeds(Scan(words, Some(arg), Single), "'") == Some(Scan(words, Some(arg), Bare));
    }
  }

  lemma {:induction false} FeedsJoined(words: seq<string>, args: seq<string>)
    requires args != [] && forall i :: 0 <= i < |args| ==> NoNul(args[i])
    ensures Feeds(Scan(words, None, Bare), Join(QuoteAll(args))) ==
            Some(Scan(words + args[..|args|-1], Some(args[|args|-1]), Bare))
    decreases |args|
  {
    FeedsArg(words, args[0]);
    var quoted := QuoteAll(args);
    if |args| == 1 {
      assert args[1..] == [];
      assert words + args[..0] == words;
    } else {
      var rest := args[1..];
      assert quoted[1..] == QuoteAll(rest) && |quoted| > 1;
      var s := Scan(words, None, Bare);
      FeedsConcat(s, quoted[0] + " ", Join(quoted[1..]));
      FeedsConcat(s, quoted[0], " ");
      assert " "[1..] == "";
      assert Feeds(Scan(words, Some(args[0]), Bare), " ") == Some(Scan(words + [args[0]], None, Bare));
      FeedsJoined(words + [args[0]], rest);
      assert words + [args[0]] + rest[..|rest|-1] == words + args[..|args|-1];
    }
  }

  lemma NothingBefore(words: seq<string>)
    ensures [] + words == words
  {}

  lemma InitAndLast(args: seq<string>)
    requires args != []
    ensures args[..|args|-1] + [args[|args|-1]] == args
  {}

  // The printed command reads back as exactly the original arguments, empty ones and
  // ones holding quotes, blanks or operators included.
  lemma CommandReadsBack(args: seq<string>)
    requires args != [] && forall i :: 0 <= i < |args| ==> NoNul(args[i])
    ensures Tokens(Join(QuoteAll(args))) == Some(args)
  {
    var n := |args| - 1;
    FeedsJoined([], args);
    NothingBefore(args[..n]);
    TokensOf(Join(QuoteAll(args)), args[..n], args[n]);
    InitAndLast(args);
  }

  lemma TokensOf(line: string, words: seq<string>, last: string)
    requires Feeds(Scan([], None, Bare), line) == Some(Scan(words, Some(last), Bare))
    ensures Tokens(line) == Some(words + [last])
  {}

  lemma ArgvCases(profile: string, account: string, args: seq<string>)
    ensures Argv(profile, account, args) ==
            if profile == "" && account == "" then ["tinvest"] + args
            else if account == "" then ["tinvest", "--profile", profile] + args
            else if profile == "" then ["tinvest", "--account", account] + args
            else ["tinvest", "--profile", profile, "--account", account] + args
  {}

  // For the hint itself: profile, account and arguments come back as given.
  lemma HintReadsBack(profile: string, account: string, args: seq<string>)
    requires NoNul(profile) && NoNul(account) && forall i :: 0 <= i < |args| ==> NoNul(args[i])
    ensures Tokens(Join(QuoteAll(Argv(profile, account, args)))) == Some(
              if profile == "" && account == "" then ["tinvest"] + args
              else if account == "" then ["tinvest", "--profile", profile] + args
              else if profile == "" then ["tinvest", "--account", account] + args
              else ["tinvest", "--profile", profile, "--account", account] + args)
  {
    var argv := Argv(profile, account, args);
    forall i | 0 <= i < |argv| ensures NoNul(argv[i]) {
      assert argv[i] in ["tinvest", "--profile", profile, "--account", account] || argv[i] in args;
    }
    CommandReadsBack(argv);
    ArgvCases(profile, account, args);
  }
}
