/** Quoting of program arguments for a POSIX shell, and the shell's own reading of them.

    The quoting half is `quote_arg` of `command.rs` with the two command lines built from it.
    The reading half is the part of the POSIX shell grammar those lines can meet: escape
    character (POSIX.1-2017 XCU section 2.2.1), single quotes (section 2.2.2) and token
    recognition (section 2.3). An unquoted character that would start anything else, such as an
    operator, an expansion, a pattern, a comment or a double quote, makes the reading fail, so a
    line that reads back at all contains none of them outside quotes. */
module ShellQuote {
  import opened Wrappers

  // ---- quoting ----

  predicate IsBare(c: char) {
    || '0' <= c <= '9'
    || 'a' <= c <= 'z'
    || 'A' <= c <= 'Z'
    || c == '/' || c == '.' || c == '_' || c == '-' || c == '+' || c == '=' || c == ':' || c == '~'
  }

  predicate IsPlain(s: string) {
    s != "" && forall i :: 0 <= i < |s| ==> IsBare(s[i])
  }

  function EscapeQuotes(s: string): string {
    if s == "" then ""
    else (if s[0] == '\'' then "'\\''" else [s[0]]) + EscapeQuotes(s[1..])
  }

  function QuoteArg(s: string): string {
    if IsPlain(s) then s else "'" + EscapeQuotes(s) + "'"
  }

  /** The command line a git pane is spawned with. */
  function GitCommand(root: string, rev: Option<string>, path: Option<string>): string {
    var head := match rev
      case Some(r) => "git -C " + QuoteArg(root) + " show --color=always " + QuoteArg(r)
      case None => "git -C " + QuoteArg(root) + " diff --color=always HEAD";
    match path
    case Some(p) => head + " -- " + QuoteArg(p)
    case None => head
  }

  /** The command line "open this file in an editor" spawns. */
  function EditorCommand(bin: string, path: string): string {
    QuoteArg(bin) + " " + QuoteArg(path)
  }

  // ---- the shell's reading ----

  datatype Mode = Between | Word | Quoted

  predicate IsBlank(c: char) {
    c == ' ' || c == '\t'
  }

  /** Unquoted characters that are not part of a plain word; `#` only where a word would start. */
  predicate IsSpecial(c: char, mode: Mode) {
    c in "|&;<>()$`\"*?[\n" || (c == '#' && mode == Between)
  }

  /** The words of `s`, read in `mode` with `cur` already collected for the current word. `None`
      where the text is outside the fragment or ends inside quotes. */
  function Tokens(s: string, mode: Mode, cur: string): Option<seq<string>>
    decreases |s|
  {
    if s == "" then
      match mode
      case Between => Some([])
      case Word => Some([cur])
      case Quoted => None
    else if mode == Quoted then
      if s[0] == '\'' then Tokens(s[1..], Word, cur) else Tokens(s[1..], Quoted, cur + [s[0]])
    else if s[0] == '\'' then
      Tokens(s[1..], Quoted, cur)
    else if s[0] == '\\' then
      if |s| == 1 then None
      else if s[1] == '\n' then Tokens(s[2..], mode, cur)
      else Tokens(s[2..], Word, cur + [s[1]])
    else if IsBlank(s[0]) then
      var later := Tokens(s[1..], Between, "");
      if mode == Between || later.None? then later else Some([cur] + later.value)
    else if IsSpecial(s[0], mode) then
      None
    else
      Tokens(s[1..], Word, cur + [s[0]])
  }

  /** The argument list a command line splits into. */
  function Read(line: string): Option<seq<string>> {
    Tokens(line, Between, "")
  }

  // ---- quoting inverts reading ----

  lemma {:induction false} PlainRun(s: string, rest: string, mode: Mode, cur: string)
    requires IsPlain(s) && mode != Quoted
    ensures Tokens(s + rest, mode, cur) == Tokens(rest, Word, cur + s)
    decreases |s|
  {
    var t := s + rest;
    assert IsBare(s[0]);
    assert t[0] == s[0] && t[1..] == s[1..] + rest;
    if |s| == 1 {
      assert s[1..] + rest == rest;
      assert cur + [s[0]] == cur + s;
    } else {
      assert cur + [s[0]] + s[1..] == cur + s;
      forall i | 0 <= i < |s[1..]| ensures IsBare(s[1..][i]) {
        assert s[1..][i] == s[i + 1];
      }
      PlainRun(s[1..], rest, Word, cur + [s[0]]);
    }
  }

  /** Closing the quotes, an escaped apostrophe and reopening them adds one apostrophe. */
  lemma EscapedQuote(later: string, cur: string)
    ensures Tokens("'\\''" + later, Quoted, cur) == Tokens(later, Quoted, cur + "'")
  {
    var t := "'\\''" + later;
    assert t[0] == '\'' && t[1] == '\\' && t[2] == '\'' && t[3] == '\'' && t[4..] == later;
    var u, w := t[1..], t[3..];
    assert u[0] == '\\' && u[1] == '\'' && u[2..] == w;
    assert w[0] == '\'' && w[1..] == later;
    assert Tokens(t, Quoted, cur) == Tokens(u, Word, cur);
    assert Tokens(u, Word, cur) == Tokens(w, Word, cur + ['\'']);
    assert Tokens(w, Word, cur + "'") == Tokens(later, Quoted, cur + "'");
  }

  lemma {:induction false} QuotedRun(s: string, rest: string, cur: string)
    ensures Tokens(EscapeQuotes(s) + "'" + rest, Quoted, cur) == Tokens(rest, Word, cur + s)
    decreases |s|
  {
    var t := EscapeQuotes(s) + "'" + rest;
    if s == "" {
      assert t[0] == '\'' && t[1..] == rest;
      assert cur + s == cur;
    } else {
      var later := EscapeQuotes(s[1..]) + "'" + rest;
      assert cur + [s[0]] + s[1..] == cur + s;
      QuotedRun(s[1..], rest, cur + [s[0]]);
      if s[0] == '\'' {
        assert t == "'\\''" + later;
        EscapedQuote(later, cur);
        assert cur + [s[0]] == cur + "'";
      } else {
        assert t == [s[0]] + later;
        assert t[1..] == later;
      }
    }
  }

  lemma OpeningQuote(later: string)
    ensures Tokens("'" + later, Between, "") == Tokens(later, Quoted, "")
  {
    assert ("'" + later)[1..] == later;
  }

  lemma QuoteRun(s: string, rest: string)
    ensures Tokens(QuoteArg(s) + rest, Between, "") == Tokens(rest, Word, s)
  {
    assert "" + s == s;
    if IsPlain(s) {
      PlainRun(s, rest, Between, "");
    } else {
      OpeningQuote(EscapeQuotes(s) + "'" + rest);
      assert QuoteArg(s) + rest == "'" + (EscapeQuotes(s) + "'" + rest);
      QuotedRun(s, rest, "");
    }
  }

  /** A letter, a digit or one of the signs that need no quotes. */
  predicate Unremarkable(c: char) {
    c in "0123456789" || c in "abcdefghijklmnopqrstuvwxyz" || c in "ABCDEFGHIJKLMNOPQRSTUVWXYZ" || c in "/._-+=:~"
  }

  /** An argument is left as it is exactly when it has something to it and nothing remarkable in it; any
      other is put in single quotes. */
  lemma BareIff(s: string)
    ensures QuoteArg(s) == s <==> s != "" && forall i :: 0 <= i < |s| ==> Unremarkable(s[i])
    ensures QuoteArg(s) != s ==> |QuoteArg(s)| >= 2 && QuoteArg(s)[0] == '\'' && QuoteArg(s)[|QuoteArg(s)| - 1] == '\''
  {
    forall c: char ensures IsBare(c) <==> Unremarkable(c) {
      DigitIs(c);
      SmallIs(c);
      BigIs(c);
    }
    hide Unremarkable, IsBare;
    if !IsPlain(s) {
      EscapesNoShorter(s);
      assert |QuoteArg(s)| > |s|;
    }
  }

  lemma DigitIs(c: char)
    ensures '0' <= c <= '9' <==> c in "0123456789"
  {
    var all := "0123456789";
    assert forall k :: 0 <= k < 10 ==> all[k] as int == 48 + k;
    if '0' <= c <= '9' { assert all[c as int - 48] == c; }
  }

  lemma SmallIs(c: char)
    ensures 'a' <= c <= 'z' <==> c in "abcdefghijklmnopqrstuvwxyz"
  {
    var all := "abcdefghijklmnopqrstuvwxyz";
    assert forall k :: 0 <= k < 26 ==> all[k] as int == 97 + k;
    if 'a' <= c <= 'z' { assert all[c as int - 97] == c; }
  }

  lemma BigIs(c: char)
    ensures 'A' <= c <= 'Z' <==> c in "ABCDEFGHIJKLMNOPQRSTUVWXYZ"
  {
    var all := "ABCDEFGHIJKLMNOPQRSTUVWXYZ";
    assert forall k :: 0 <= k < 26 ==> all[k] as int == 65 + k;
    if 'A' <= c <= 'Z' { assert all[c as int - 65] == c; }
  }

  lemma {:induction false} EscapesNoShorter(s: string)
    ensures |EscapeQuotes(s)| >= |s|
  {
    if s != "" { EscapesNoShorter(s[1..]); }
  }

  /** Every string is one shell word again after quoting. */
  lemma QuoteArgReadsBack(s: string)
    ensures Read(QuoteArg(s)) == Some([s])
  {
    QuoteRun(s, "");
    assert QuoteArg(s) + "" == QuoteArg(s);
  }

  /** The quoted arguments, one blank apart. */
  function Line(args: seq<string>): string {
    if args == [] then ""
    else if |args| == 1 then QuoteArg(args[0])
    else QuoteArg(args[0]) + " " + Line(args[1..])
  }

  lemma BlankEndsWord(later: string, cur: string)
    requires Read(later).Some?
    ensures Tokens(" " + later, Word, cur) == Some([cur] + Read(later).value)
  {
    assert (" " + later)[1..] == later;
  }

  /** A line of quoted arguments splits into exactly those arguments, whatever they contain. */
  lemma {:induction false} LineReadsBack(args: seq<string>)
    ensures Read(Line(args)) == Some(args)
  {
    hide QuoteArg, Tokens;
    if args == [] {
      NothingRead();
    } else if |args| == 1 {
      QuoteArgReadsBack(args[0]);
      assert [args[0]] == args;
    } else {
      var rest := " " + Line(args[1..]);
      QuoteRun(args[0], rest);
      assert Line(args) == QuoteArg(args[0]) + rest;
      LineReadsBack(args[1..]);
      BlankEndsWord(Line(args[1..]), args[0]);
      assert [args[0]] + args[1..] == args;
    }
  }

  lemma NothingRead()
    ensures Read("") == Some([])
  {
  }

  function GitArgs(root: string, rev: Option<string>, path: Option<string>): seq<string> {
    (match rev
     case Some(r) => ["git", "-C", root, "show", "--color=always", r]
     case None => ["git", "-C", root, "diff", "--color=always", "HEAD"])
    + (match path case Some(p) => ["--", p] case None => [])
  }

  lemma {:induction false} LineOfPlain(word: string, rest: seq<string>)
    requires IsPlain(word) && rest != []
    ensures Line([word] + rest) == word + " " + Line(rest)
  {
    assert ([word] + rest)[1..] == rest;
  }

  lemma {:induction false} LineOfTwo(a: string, b: string)
    ensures Line([a, b]) == QuoteArg(a) + " " + QuoteArg(b)
  {
    assert [a, b][1..] == [b];
  }

  lemma {:induction false} LineAppend(xs: seq<string>, ys: seq<string>)
    requires xs != [] && ys != []
    ensures Line(xs + ys) == Line(xs) + " " + Line(ys)
  {
    assert (xs + ys)[1..] == xs[1..] + ys;
    if |xs| > 1 {
      LineAppend(xs[1..], ys);
      calc {
        Line(xs + ys);
        QuoteArg(xs[0]) + " " + Line(xs[1..] + ys);
        QuoteArg(xs[0]) + " " + (Line(xs[1..]) + " " + Line(ys));
        (QuoteArg(xs[0]) + " " + Line(xs[1..])) + " " + Line(ys);
      }
    } else {
      assert xs[1..] + ys == ys;
    }
  }

  /** The git pane runs git with the root, revision and path it was asked for, each one argument. */
  lemma GitCommandReadsBack(root: string, rev: Option<string>, path: Option<string>)
    ensures Read(GitCommand(root, rev, path)) == Some(GitArgs(root, rev, path))
  {
    var args := GitArgs(root, rev, None);
    GitHeadLine(root, rev);
    if path.Some? {
      LineAppend(args, ["--", path.value]);
      PathTail(Line(args), path.value);
      assert GitArgs(root, rev, path) == args + ["--", path.value];
    } else {
      assert GitArgs(root, rev, path) == args;
    }
    LineReadsBack(GitArgs(root, rev, path));
  }

  lemma PathTail(head: string, path: string)
    ensures head + " -- " + QuoteArg(path) == head + " " + Line(["--", path])
  {
    LineOfTwo("--", path);
    assert IsPlain("--");
    Chain(head, "--", QuoteArg(path));
    assert " " + "--" + " " == " -- ";
  }

  lemma Chain(a: string, b: string, c: string)
    ensures a + " " + (b + " " + c) == a + (" " + b + " ") + c
  {
  }

  lemma Regroup(a: string, b: string, c: string, d: string, e: string, f: string, g: string)
    ensures a + (b + c + d + e + f) + g == a + b + c + d + e + f + g
  {
  }

  lemma LineOfGit(root: string, verb: string, flag: string, last: string)
    requires IsPlain(verb) && IsPlain(flag)
    ensures Line(["git", "-C", root, verb, flag, last])
         == "git -C " + QuoteArg(root) + " " + verb + " " + flag + " " + QuoteArg(last)
  {
    var two, tail := ["git", "-C"], [verb, flag, last];
    LineOfTwo(flag, last);
    LineOfPlain(verb, [flag, last]);
    assert tail == [verb] + [flag, last];
    LineAppend([root], tail);
    LineAppend(two, [root] + tail);
    assert ["git", "-C", root, verb, flag, last] == two + ([root] + tail);
    GitPrefix();
    Nest(Line(two), QuoteArg(root), verb, flag, QuoteArg(last));
    assert Line(two) + " " == "git -C ";
  }

  lemma GitPrefix()
    ensures Line(["git", "-C"]) == "git -C"
  {
    LineOfTwo("git", "-C");
    assert IsPlain("git") && IsPlain("-C");
    assert "git" + " " + "-C" == "git -C";
  }

  lemma Nest(a: string, b: string, c: string, d: string, e: string)
    ensures a + " " + (b + " " + (c + " " + (d + " " + e)))
         == (a + " ") + b + " " + c + " " + d + " " + e
  {
  }

  lemma GitWordsArePlain()
    ensures IsPlain("show") && IsPlain("diff") && IsPlain("HEAD") && IsPlain("--color=always")
  {
  }

  lemma ShowLine(head: string, last: string)
    ensures head + " show --color=always " + last
         == head + " " + "show" + " " + "--color=always" + " " + last
  {
    Regroup(head, " ", "show", " ", "--color=always", " ", last);
    assert " " + "show" + " " + "--color=always" + " " == " show --color=always ";
  }

  lemma DiffLine(head: string)
    ensures head + " diff --color=always HEAD"
         == head + " " + "diff" + " " + "--color=always" + " " + "HEAD"
  {
    Regroup(head, " ", "diff", " ", "--color=always", " ", "HEAD");
    var mid := " " + "diff" + " " + "--color=always" + " ";
    assert mid + "HEAD" == " diff --color=always HEAD";
    assert head + mid + "HEAD" == head + (mid + "HEAD");
  }

  lemma GitHeadLine(root: string, rev: Option<string>)
    ensures GitCommand(root, rev, None) == Line(GitArgs(root, rev, None))
  {
    GitWordsArePlain();
    var head := "git -C " + QuoteArg(root);
    match rev
    case Some(r) =>
      LineOfGit(root, "show", "--color=always", r);
      ShowLine(head, QuoteArg(r));
      assert GitArgs(root, rev, None) == ["git", "-C", root, "show", "--color=always", r];
    case None =>
      LineOfGit(root, "diff", "--color=always", "HEAD");
      DiffLine(head);
      assert GitArgs(root, rev, None) == ["git", "-C", root, "diff", "--color=always", "HEAD"];
  }

  lemma EditorCommandReadsBack(bin: string, path: string)
    ensures Read(EditorCommand(bin, path)) == Some([bin, path])
  {
    LineOfTwo(bin, path);
    LineReadsBack([bin, path]);
  }
}
