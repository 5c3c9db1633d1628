// beacon-sandbox/runner/guest.go, shell.go and runner.go: the printers of shell words, proved
// against the quoting rules of the POSIX Shell Command Language.
module Shell {
  import opened Text

  // ------------------------------------------- the lexer (sections 2.2 and 2.3)

  /** The words of a simple command, and the text from the first operator on. */
  datatype Lexed = Lexed(words: seq<string>, rest: string)

  datatype Mode = Gap | Bare | Single | Double

  predicate IsBlank(c: char) { c == ' ' || c == '\t' }
  predicate IsOperator(c: char) { c in "|&;<>()\n" }

  /** Unquoted, these ask the shell for an expansion or a pattern. */
  predicate Expands(c: char) { c in "$`*?[~" }

  /** Inside double quotes a backslash escapes only these. */
  predicate EscapesInDouble(c: char) { c in "$`\"\\\n" }

  function Push(word: string, l: Option<Lexed>): Option<Lexed> {
    if l.Some? then Some(Lexed([word] + l.value.words, l.value.rest)) else None
  }

  /** Words of `s`, the one under way being `word`. None stands for an unterminated quote and for
      text the shell would expand, redirect by number or take for a comment. */
  function Scan(mode: Mode, word: string, s: string): Option<Lexed>
    decreases |s|, if mode.Gap? then 1 else 0
  {
    match mode
    case Gap =>
      if s == "" || IsOperator(s[0]) then Some(Lexed([], s))
      else if IsBlank(s[0]) then Scan(Gap, "", s[1..])
      else if s[0] == '#' then None
      else Scan(Bare, "", s)
    case Bare =>
      if s == "" then Some(Lexed([word], ""))
      else if IsBlank(s[0]) then Push(word, Scan(Gap, "", s[1..]))
      else if s[0] == '<' || s[0] == '>' then None
      else if IsOperator(s[0]) then Some(Lexed([word], s))
      else if s[0] == '\'' then Scan(Single, word, s[1..])
      else if s[0] == '"' then Scan(Double, word, s[1..])
      else if Expands(s[0]) then None
      else if s[0] != '\\' then Scan(Bare, word + [s[0]], s[1..])
      else if |s| == 1 then None
      else Scan(Bare, if s[1] == '\n' then word else word + [s[1]], s[2..])
    case Single =>
      if s == "" then None
      else if s[0] == '\'' then Scan(Bare, word, s[1..])
      else Scan(Single, word + [s[0]], s[1..])
    case Double =>
      if s == "" || s[0] == '$' || s[0] == '`' then None
      else if s[0] == '"' then Scan(Bare, word, s[1..])
      else if s[0] != '\\' || |s| == 1 || !EscapesInDouble(s[1]) then Scan(Double, word + [s[0]], s[1..])
      else Scan(Double, if s[1] == '\n' then word else word + [s[1]], s[2..])
  }

  function Lex(s: string): Option<Lexed> {
    Scan(Gap, "", s)
  }

  // ------------------------------------------------------ the printers

  function Quote(s: string): (q: string)
    ensures |q| >= 2 && q[0] == '\''
  {
    "'" + ReplaceChar(s, '\'', "'\\''") + "'"
  }

  function QuoteEach(args: seq<string>): (quoted: seq<string>)
    ensures |quoted| == |args|
  {
    if args == [] then [] else QuoteEach(args[..|args| - 1]) + [Quote(args[|args| - 1])]
  }

  method QuoteAll(args: seq<string>) returns (quoted: seq<string>)
    ensures quoted == QuoteEach(args)
  {
    var out := new string[|args|](_ => "");
    for i := 0 to |args|
      invariant out[..i] == QuoteEach(args[..i])
    {
      out[i] := Quote(args[i]);
      assert args[..i + 1][..i] == args[..i];
      assert out[..i + 1] == out[..i] + [out[i]];
    }
    assert args[..|args|] == args && out[..] == out[..|args|];
    return out[..];
  }

  // ----------------------------------------------------- spelled words

  /** In any word under way, `text` adds exactly `word`. */
  ghost predicate Spells(text: string, word: string) {
    forall w: string, rest: string :: Scan(Bare, w, text + rest) == Scan(Bare, w + word, rest)
  }

  /** A text that starts a word when it comes after a blank. */
  predicate StartsWord(text: string) {
    text != "" && !IsBlank(text[0]) && !IsOperator(text[0]) && text[0] != '#'
  }

  lemma ReplaceStep(c: char, s: string)
    ensures ReplaceChar([c] + s, '\'', "'\\''") == (if c == '\'' then "'\\''" else [c]) + ReplaceChar(s, '\'', "'\\''")
  {
    assert ([c] + s)[1..] == s;
  }

  lemma SingleStep(w: string, c: char, s: string)
    requires c != '\''
    ensures Scan(Single, w, [c] + s) == Scan(Single, w + [c], s)
  {
    assert ([c] + s)[1..] == s;
  }

  /** Out of the quotes, an escaped quote, and in again. */
  lemma QuoteStep(w: string, s: string)
    ensures Scan(Single, w, "'\\''" + s) == Scan(Single, w + "'", s)
  {
    var t := "'\\''" + s;
    assert t[1..] == "\\''" + s && t[1..][2..] == "'" + s && ("'" + s)[1..] == s;
    assert Scan(Single, w, t) == Scan(Bare, w, t[1..]);
    assert Scan(Bare, w, t[1..]) == Scan(Bare, w + "'", "'" + s);
    assert Scan(Bare, w + "'", "'" + s) == Scan(Single, w + "'", s);
  }

  lemma {:induction false} QuotedTail(w: string, s: string, rest: string)
    ensures Scan(Single, w, ReplaceChar(s, '\'', "'\\''") + "'" + rest) == Scan(Bare, w + s, rest)
    decreases |s|
  {
    if s == "" {
      assert ReplaceChar(s, '\'', "'\\''") + "'" + rest == "'" + rest && ("'" + rest)[1..] == rest && w + s == w;
    } else {
      var c, t := s[0], s[1..];
      assert s == [c] + t && w + s == w + [c] + t;
      var more := ReplaceChar(t, '\'', "'\\''") + "'" + rest;
      ReplaceStep(c, t);
      assert ReplaceChar(s, '\'', "'\\''") + "'" + rest == (if c == '\'' then "'\\''" else [c]) + more;
      QuotedTail(w + [c], t, rest);
      hide Scan;
      if c == '\'' {
        QuoteStep(w, more);
      } else {
        SingleStep(w, c, more);
      }
    }
  }

  /** A quoted string spells the string, whatever is in it. */
  lemma QuoteSpells(s: string)
    ensures Spells(Quote(s), s) && StartsWord(Quote(s))
  {
    forall w: string, rest: string ensures Scan(Bare, w, Quote(s) + rest) == Scan(Bare, w + s, rest) {
      var t := Quote(s) + rest;
      assert t[0] == '\'' && t[1..] == ReplaceChar(s, '\'', "'\\''") + "'" + rest;
      QuotedTail(w, s, rest);
    }
  }

  predicate PlainChar(c: char) {
    'a' <= c <= 'z' || 'A' <= c <= 'Z' || '0' <= c <= '9' || '+' <= c <= '.'
  }

  /** A word that needs no quoting. */
  predicate Plain(s: string) {
    s != "" && forall c | c in s :: PlainChar(c)
  }

  lemma {:induction false} PlainScans(s: string, w: string, rest: string)
    requires forall c | c in s :: PlainChar(c)
    ensures Scan(Bare, w, s + rest) == Scan(Bare, w + s, rest)
  {
    if s == "" {
      assert s + rest == rest && w + s == w;
    } else {
      assert PlainChar(s[0]) && (s + rest)[1..] == s[1..] + rest && w + s == w + [s[0]] + s[1..];
      PlainScans(s[1..], w + [s[0]], rest);
    }
  }

  lemma PlainSpells(s: string)
    requires Plain(s)
    ensures Spells(s, s) && StartsWord(s)
  {
    assert PlainChar(s[0]);
    forall w: string, rest: string ensures Scan(Bare, w, s + rest) == Scan(Bare, w + s, rest) {
      PlainScans(s, w, rest);
    }
  }

  ghost predicate AllSpell(texts: seq<string>, words: seq<string>) {
    |texts| == |words| && forall i | 0 <= i < |texts| :: Spells(texts[i], words[i]) && StartsWord(texts[i])
  }

  /** A text that ends the word before it, and is not a redirection. */
  predicate EndsWord(tail: string) {
    tail == "" || IsBlank(tail[0]) || (IsOperator(tail[0]) && tail[0] != '<' && tail[0] != '>')
  }

  function PushAll(words: seq<string>, l: Option<Lexed>): Option<Lexed> {
    if l.Some? then Some(Lexed(words + l.value.words, l.value.rest)) else None
  }

  lemma WordStarts(text: string, tail: string)
    requires StartsWord(text)
    ensures Scan(Gap, "", text + tail) == Scan(Bare, "", text + tail)
  {
    assert (text + tail)[0] == text[0];
  }

  lemma WordEnds(word: string, tail: string)
    requires EndsWord(tail)
    ensures Scan(Bare, word, tail) == Push(word, Scan(Gap, "", tail))
  {
    if tail == "" || IsOperator(tail[0]) {
      assert Scan(Gap, "", tail) == Some(Lexed([], tail)) && [word] + [] == [word];
    } else {
      assert Scan(Gap, "", tail) == Scan(Gap, "", tail[1..]);
    }
  }

  lemma ScanOne(text: string, word: string, tail: string)
    requires Spells(text, word) && StartsWord(text) && EndsWord(tail)
    ensures Scan(Gap, "", text + tail) == Push(word, Scan(Gap, "", tail))
  {
    hide Scan, StartsWord;
    WordStarts(text, tail);
    assert "" + word == word;
    WordEnds(word, tail);
  }

  lemma ScanSpace(s: string)
    ensures Scan(Gap, "", " " + s) == Scan(Gap, "", s)
  {
    assert (" " + s)[1..] == s;
  }

  /** Spelled words with single blanks between them lex to the words they spell. */
  lemma {:induction false} WordsLex(texts: seq<string>, words: seq<string>, tail: string)
    requires texts != [] && AllSpell(texts, words) && EndsWord(tail)
    ensures Scan(Gap, "", Join(texts, " ") + tail) == PushAll(words, Scan(Gap, "", tail))
  {
    hide Scan, Spells, StartsWord;
    if |texts| == 1 {
      ScanOne(texts[0], words[0], tail);
      assert words == [words[0]];
    } else {
      var more := " " + Join(texts[1..], " ") + tail;
      assert Join(texts, " ") + tail == texts[0] + more;
      ScanOne(texts[0], words[0], more);
      assert more == " " + (Join(texts[1..], " ") + tail);
      ScanSpace(Join(texts[1..], " ") + tail);
      WordsLex(texts[1..], words[1..], tail);
      var l := Scan(Gap, "", tail);
      if l.Some? {
        assert words + l.value.words == [words[0]] + (words[1..] + l.value.words);
      }
    }
  }

  lemma {:induction false} QuoteEachSpells(args: seq<string>)
    ensures AllSpell(QuoteEach(args), args)
  {
    hide Spells, StartsWord;
    if args != [] {
      var n := |args| - 1;
      QuoteEachSpells(args[..n]);
      QuoteSpells(args[n]);
    }
  }

  /** Lexing the joined quotations gives back the arguments: none split, merged, expanded or lost,
      the empty ones included. */
  lemma QuoteAllLexes(args: seq<string>)
    ensures Lex(Join(QuoteEach(args), " ")) == Some(Lexed(args, ""))
  {
    hide Spells, StartsWord;
    var text := Join(QuoteEach(args), " ");
    assert text + "" == text && Scan(Gap, "", "") == Some(Lexed([], ""));
    if args == [] {
      assert text == "";
    } else {
      QuoteEachSpells(args);
      WordsLex(QuoteEach(args), args, "");
      assert args + [] == args;
    }
  }

  /** In plain text: single quotes around, and each single quote within closed, escaped and reopened. */
  lemma QuoteText(a: string, b: string)
    requires '\'' !in a
    ensures Quote(a) == "'" + a + "'"
    ensures Quote(a + "'" + b) == "'" + a + "'\\'" + Quote(b)
  {
    ReplaceCharIdle(a, '\'', "'\\''");
    ReplaceText(a, b);
    hide ReplaceChar;
    assert "'\\''" == "'\\'" + "'";
  }

  lemma ReplaceText(a: string, b: string)
    requires '\'' !in a
    ensures ReplaceChar(a + "'" + b, '\'', "'\\''") == a + "'\\''" + ReplaceChar(b, '\'', "'\\''")
  {
    ReplaceCharIdle(a, '\'', "'\\''");
    ReplaceAppend(a + "'", b, '\'', "'\\''");
    ReplaceAppend(a, "'", '\'', "'\\''");
    ReplaceStep('\'', "");
    assert ['\''] + "" == "'" && "'\\''" + "" == "'\\''" && ReplaceChar("", '\'', "'\\''") == "";
    hide ReplaceChar;
  }

  // ------------------------------------------ an agent session's script

  datatype Scenario = Scenario(budget: string, tools: Option<seq<string>>, disallowed: seq<string>)

  function ClaudeFlags(sc: Scenario, prompt: string): seq<string> {
    ["-p", Quote(prompt), "--output-format", "json", "--dangerously-skip-permissions", "--max-budget-usd " + sc.budget]
    + (if sc.tools.None? then [] else if sc.tools.value == [] then ["--tools", Quote("")]
       else ["--tools", Quote(Join(sc.tools.value, ","))])
    + (if sc.disallowed == [] then [] else ["--disallowedTools", Quote(Join(sc.disallowed, ","))])
  }

  const INNER_TAIL := "> claude-out.json 2> claude-err.txt"
  const REPORT := "rc=$?; echo CI_EXEC_RC=$rc; tail -c 400 ci-out.txt; "
                  + "if [ \"$rc\" -ne 0 ]; then echo '--- ci exec stderr ---'; tail -c 800 ci-err.txt; fi; exit $rc"
  const OUTER_TAIL := "> ci-out.txt 2> ci-err.txt; " + REPORT

  function Inner(flags: seq<string>): string {
    "claude " + Join(flags, " ") + " " + INNER_TAIL
  }

  function CiLine(logPath: string, inner: string): string {
    "beacon ci exec" + " " + "--harness claude" + " " + "--log-path" + " " + Quote(logPath) + " " + "-- sh -c" + " "
    + Quote(inner) + " " + OUTER_TAIL
  }

  function CiExecSession(logPath: string, flags: seq<string>): string {
    CiLine(logPath, Inner(flags))
  }

  /** What the agent should be started with. */
  function ClaudeArgv(sc: Scenario, prompt: string): seq<string> {
    ["claude", "-p", prompt, "--output-format", "json", "--dangerously-skip-permissions", "--max-budget-usd", sc.budget]
    + (if sc.tools.Some? then ["--tools", Join(sc.tools.value, ",")] else [])
    + (if sc.disallowed != [] then ["--disallowedTools", Join(sc.disallowed, ",")] else [])
  }

  function CiArgv(logPath: string, inner: string): seq<string> {
    ["beacon", "ci", "exec", "--harness", "claude", "--log-path", logPath, "--", "sh", "-c", inner]
  }

  /** Two words printed as one flag with a blank inside join as two. */
  lemma {:induction false} JoinInside(front: seq<string>, x: string, y: string, back: seq<string>)
    ensures Join(front + [x + " " + y] + back, " ") == Join(front + [x, y] + back, " ")
  {
    if front == [] {
      assert [] + [x + " " + y] + back == [x + " " + y] + back && [] + [x, y] + back == [x] + ([y] + back);
      if back == [] {
        assert [x, y][1..] == [y];
      } else {
        JoinAppend([x + " " + y], back, " ");
        JoinAppend([x], [y] + back, " ");
        JoinAppend([y], back, " ");
      }
    } else {
      assert (front + [x + " " + y] + back)[1..] == front[1..] + [x + " " + y] + back;
      assert (front + [x, y] + back)[1..] == front[1..] + [x, y] + back;
      JoinInside(front[1..], x, y, back);
    }
  }

  /** The same command line with each word its own text. */
  function ClaudeTexts(sc: Scenario, prompt: string): seq<string> {
    ["claude", "-p", Quote(prompt), "--output-format", "json", "--dangerously-skip-permissions", "--max-budget-usd",
        sc.budget]
    + ToolTexts(sc)
  }

  function ToolTexts(sc: Scenario): seq<string> {
    (if sc.tools.Some? then ["--tools", Quote(Join(sc.tools.value, ","))] else [])
    + (if sc.disallowed != [] then ["--disallowedTools", Quote(Join(sc.disallowed, ","))] else [])
  }

  function ToolWords(sc: Scenario): seq<string> {
    (if sc.tools.Some? then ["--tools", Join(sc.tools.value, ",")] else [])
    + (if sc.disallowed != [] then ["--disallowedTools", Join(sc.disallowed, ",")] else [])
  }

  lemma SpellAppend(a: seq<string>, u: seq<string>, b: seq<string>, v: seq<string>)
    requires AllSpell(a, u) && AllSpell(b, v)
    ensures AllSpell(a + b, u + v)
  {
    hide Spells, StartsWord;
  }

  lemma SpellPair(option: string, value: string)
    requires Plain(option)
    ensures AllSpell([option, Quote(value)], [option, value])
  {
    hide Spells, StartsWord, Plain;
    PlainSpells(option);
    QuoteSpells(value);
  }

  lemma OptionsArePlain()
    ensures Plain("--tools") && Plain("--disallowedTools") && Plain("-p") && Plain("--log-path") && Plain("-c")
  {
    hide PlainChar;
    ToolOptionsArePlain();
    OtherOptionsArePlain();
  }

  lemma ToolOptionsArePlain()
    ensures Plain("--tools") && Plain("--disallowedTools")
  {
  }

  lemma OtherOptionsArePlain()
    ensures Plain("-p") && Plain("--log-path") && Plain("-c")
  {
  }

  lemma NothingSpells()
    ensures AllSpell([], [])
  {
  }

  lemma ToolTextsSpell(sc: Scenario)
    ensures AllSpell(ToolTexts(sc), ToolWords(sc))
  {
    hide Spells, StartsWord, AllSpell, Quote, Join, Plain;
    OptionsArePlain();
    NothingSpells();
    SpellPair("--tools", if sc.tools.Some? then Join(sc.tools.value, ",") else "");
    SpellPair("--disallowedTools", Join(sc.disallowed, ","));
    var a, u := if sc.tools.Some? then ["--tools", Quote(Join(sc.tools.value, ","))] else [],
                if sc.tools.Some? then ["--tools", Join(sc.tools.value, ",")] else [];
    var b, v := if sc.disallowed != [] then ["--disallowedTools", Quote(Join(sc.disallowed, ","))] else [],
                if sc.disallowed != [] then ["--disallowedTools", Join(sc.disallowed, ",")] else [];
    SpellAppend(a, u, b, v);
  }

  lemma {:induction false} PlainWordsSpell(words: seq<string>)
    requires forall w | w in words :: Plain(w)
    ensures AllSpell(words, words)
  {
    hide Spells, StartsWord, Plain;
    forall i | 0 <= i < |words| ensures Spells(words[i], words[i]) && StartsWord(words[i]) {
      assert words[i] in words;
      PlainSpells(words[i]);
    }
  }

  lemma WordsArePlain(budget: string)
    requires Plain(budget)
    ensures forall w | w in ["claude"] :: Plain(w)
    ensures forall w | w in ["--output-format", "json", "--dangerously-skip-permissions", "--max-budget-usd",
           budget] :: Plain(w)
  {
    hide Plain;
    FormatIsPlain();
    PermissionsArePlain();
    BudgetIsPlain();
  }

  lemma FormatIsPlain()
    ensures Plain("--output-format") && Plain("json") && Plain("claude")
  {
  }

  lemma PermissionsArePlain()
    ensures Plain("--dangerously-skip-permissions")
  {
  }

  lemma BudgetIsPlain()
    ensures Plain("--max-budget-usd")
  {
  }

  lemma ClaudeTextsSpell(sc: Scenario, prompt: string)
    requires Plain(sc.budget)
    ensures AllSpell(ClaudeTexts(sc, prompt), ClaudeArgv(sc, prompt))
  {
    hide Spells, StartsWord, AllSpell, ToolTexts, ToolWords, Quote, ClaudeArgv, Plain;
    OptionsArePlain();
    WordsArePlain(sc.budget);
    var head, tail := ["claude"], ["--output-format", "json", "--dangerously-skip-permissions", "--max-budget-usd",
        sc.budget];
    PlainWordsSpell(head);
    PlainWordsSpell(tail);
    SpellPair("-p", prompt);
    ToolTextsSpell(sc);
    SpellAppend(head, head, ["-p", Quote(prompt)], ["-p", prompt]);
    SpellAppend(head + ["-p", Quote(prompt)], head + ["-p", prompt], tail, tail);
    var texts, words := head + ["-p", Quote(prompt)] + tail, head + ["-p", prompt] + tail;
    SpellAppend(texts, words, ToolTexts(sc), ToolWords(sc));
    assert texts + ToolTexts(sc) == ClaudeTexts(sc, prompt);
    assert words == ["claude", "-p", prompt, "--output-format", "json", "--dangerously-skip-permissions",
           "--max-budget-usd", sc.budget];
    ArgvParts(sc, prompt);
  }

  lemma ArgvParts(sc: Scenario, prompt: string)
    ensures ClaudeArgv(sc, prompt)
         == ["claude", "-p", prompt, "--output-format", "json", "--dangerously-skip-permissions", "--max-budget-usd",
             sc.budget]
            + ToolWords(sc)
  {
  }

  /** The inner command line is its texts joined. */
  lemma InnerIsTexts(sc: Scenario, prompt: string)
    ensures Inner(ClaudeFlags(sc, prompt)) == Join(ClaudeTexts(sc, prompt), " ") + " " + INNER_TAIL
  {
    hide Join, Quote;
    var front := ["claude", "-p", Quote(prompt), "--output-format", "json", "--dangerously-skip-permissions"];
    var flags := ClaudeFlags(sc, prompt);
    assert Join([], ",") == "" by { JoinNone(); }
    assert ["claude"] + flags == front + ["--max-budget-usd " + sc.budget] + ToolTexts(sc);
    JoinInside(front, "--max-budget-usd", sc.budget, ToolTexts(sc));
    assert "--max-budget-usd" + " " + sc.budget == "--max-budget-usd " + sc.budget;
    assert front + ["--max-budget-usd", sc.budget] + ToolTexts(sc) == ClaudeTexts(sc, prompt);
    JoinAppend(["claude"], flags, " ");
    JoinOne("claude");
  }

  lemma JoinNone()
    ensures Join([], ",") == ""
  {
  }

  lemma JoinOne(s: string)
    ensures Join([s], " ") == s
  {
  }

  /** Lexed twice, as the outer shell and then `sh -c` do, the script starts the agent with the
      prompt as one word, exactly as it was given, and every other argument whole. */
  lemma SessionLexesTwice(sc: Scenario, prompt: string, logPath: string)
    requires Plain(sc.budget)
    ensures var outer := Lex(CiExecSession(logPath, ClaudeFlags(sc, prompt)));
            var tools := if sc.tools.Some? then ["--tools", Join(sc.tools.value, ",")] else [];
            var disallowed := if sc.disallowed != [] then ["--disallowedTools", Join(sc.disallowed, ",")] else [];
            && outer.Some? && |outer.value.words| == 11
            && outer.value.words[..10]
               == ["beacon", "ci", "exec", "--harness", "claude", "--log-path", logPath, "--", "sh", "-c"]
            && outer.value.rest
               == "> ci-out.txt 2> ci-err.txt; "
                  + ("rc=$?; echo CI_EXEC_RC=$rc; tail -c 400 ci-out.txt; "
                     + "if [ \"$rc\" -ne 0 ]; then echo '--- ci exec stderr ---'; tail -c 800 ci-err.txt; fi; exit $rc")
            && Lex(outer.value.words[10])
               == Some(Lexed(["claude", "-p", prompt, "--output-format", "json", "--dangerously-skip-permissions",
                              "--max-budget-usd", sc.budget]
                             + tools + disallowed, "> claude-out.json 2> claude-err.txt"))
  {
    var inner := Inner(ClaudeFlags(sc, prompt));
    CiTextsLex(logPath, inner);
    InnerLexes(sc, prompt);
    assert CiArgv(logPath, inner)[..10]
        == ["beacon", "ci", "exec", "--harness", "claude", "--log-path", logPath, "--", "sh", "-c"];
    hide Inner, Lex, Quote, OUTER_TAIL, REPORT;
    assert CiExecSession(logPath, ClaudeFlags(sc, prompt)) == CiLine(logPath, inner);
  }

  lemma InnerLexes(sc: Scenario, prompt: string)
    requires Plain(sc.budget)
    ensures Lex(Inner(ClaudeFlags(sc, prompt))) == Some(Lexed(ClaudeArgv(sc, prompt), INNER_TAIL))
  {
    hide Inner, ClaudeTexts, ClaudeArgv, AllSpell, Join, Lex, Quote, Plain, ClaudeFlags;
    InnerIsTexts(sc, prompt);
    ClaudeTextsSpell(sc, prompt);
    SpellsSome(sc, prompt);
    LexesBefore(ClaudeTexts(sc, prompt), ClaudeArgv(sc, prompt), INNER_TAIL);
  }

  lemma SpellsSome(sc: Scenario, prompt: string)
    ensures ClaudeTexts(sc, prompt) != []
  {
  }

  /** buildClaudeFlags: behind `claude` on the inner command line, the flags lex to the arguments the
      agent should get. */
  method BuildClaudeFlags(sc: Scenario, prompt: string) returns (flags: seq<string>)
    ensures Plain(sc.budget) ==> Lex(Inner(flags)) == Some(Lexed(ClaudeArgv(sc, prompt), INNER_TAIL))
    ensures flags == ClaudeFlags(sc, prompt)
  {
    hide Quote, Join, Lex, Plain, Inner, ClaudeArgv;
    flags := [
      "-p", Quote(prompt), "--output-format", "json", "--dangerously-skip-permissions", "--max-budget-usd " + sc.budget
    ];
    if sc.tools.Some? && |sc.tools.value| > 0 {
      flags := flags + ["--tools", Quote(Join(sc.tools.value, ","))];
    } else if sc.tools.Some? {
      flags := flags + ["--tools", Quote("")];
    }
    if |sc.disallowed| > 0 {
      flags := flags + ["--disallowedTools", Quote(Join(sc.disallowed, ","))];
    }
    assert flags == ClaudeFlags(sc, prompt);
    if Plain(sc.budget) {
      InnerLexes(sc, prompt);
    }
  }

  lemma TailLexes(tail: string)
    requires tail != "" && tail[0] == '>'
    ensures Scan(Gap, "", " " + tail) == Some(Lexed([], tail))
  {
    ScanSpace(tail);
  }

  lemma CiWordsArePlain()
    ensures forall w | w in ["beacon", "ci", "exec", "--harness", "claude"] :: Plain(w)
    ensures forall w | w in ["--", "sh"] :: Plain(w)
  {
  }

  lemma CiTextsSpell(logPath: string, inner: string)
    ensures AllSpell(["beacon", "ci", "exec", "--harness", "claude", "--log-path", Quote(logPath), "--", "sh", "-c",
           Quote(inner)],
                     CiArgv(logPath, inner))
  {
    hide Spells, StartsWord, Quote, AllSpell, Plain;
    var head, mid := ["beacon", "ci", "exec", "--harness", "claude"], ["--", "sh"];
    OptionsArePlain();
    CiWordsArePlain();
    PlainWordsSpell(head);
    PlainWordsSpell(mid);
    SpellPair("--log-path", logPath);
    SpellPair("-c", inner);
    var t0, w0 := head + ["--log-path", Quote(logPath)], head + ["--log-path", logPath];
    SpellAppend(head, head, ["--log-path", Quote(logPath)], ["--log-path", logPath]);
    SpellAppend(t0, w0, mid, mid);
    SpellAppend(t0 + mid, w0 + mid, ["-c", Quote(inner)], ["-c", inner]);
    assert w0 + mid + ["-c", inner] == CiArgv(logPath, inner);
    assert t0 + mid + ["-c", Quote(inner)]
        == ["beacon", "ci", "exec", "--harness", "claude", "--log-path", Quote(logPath), "--", "sh", "-c",
            Quote(inner)];
  }

  lemma CiTextsLex(logPath: string, inner: string)
    ensures Lex(CiLine(logPath, inner)) == Some(Lexed(CiArgv(logPath, inner), OUTER_TAIL))
  {
    hide AllSpell, Quote, Join, Scan;
    var texts := ["beacon", "ci", "exec", "--harness", "claude", "--log-path", Quote(logPath), "--", "sh", "-c",
        Quote(inner)];
    CiTextsSpell(logPath, inner);
    CiLineIsTexts(Quote(logPath), Quote(inner));
    LexesBefore(texts, CiArgv(logPath, inner), OUTER_TAIL);
  }

  /** Spelled words in front of a redirection are the words of the command. */
  lemma LexesBefore(texts: seq<string>, words: seq<string>, tail: string)
    requires texts != [] && AllSpell(texts, words) && tail != "" && tail[0] == '>'
    ensures Lex(Join(texts, " ") + " " + tail) == Some(Lexed(words, tail))
  {
    hide AllSpell, Join, Scan;
    TailLexes(tail);
    WordsLex(texts, words, " " + tail);
    assert Join(texts, " ") + (" " + tail) == Join(texts, " ") + " " + tail;
    assert words + [] == words;
  }

  lemma CiLineIsTexts(q: string, r: string)
    ensures Join(["beacon", "ci", "exec", "--harness", "claude", "--log-path", q, "--", "sh", "-c", r], " ")
         == "beacon ci exec" + " " + "--harness claude" + " " + "--log-path" + " " + q + " " + "-- sh -c" + " " + r
  {
    hide Join;
    var a, b, c := ["beacon", "ci", "exec"], ["--harness", "claude"], ["--", "sh", "-c"];
    JoinAppend(a, b, " ");
    JoinAppend(a + b, ["--log-path"], " ");
    JoinAppend(a + b + ["--log-path"], [q], " ");
    JoinAppend(a + b + ["--log-path"] + [q], c, " ");
    JoinAppend(a + b + ["--log-path"] + [q] + c, [r], " ");
    assert ["beacon", "ci", "exec", "--harness", "claude", "--log-path", q, "--", "sh", "-c", r]
        == a + b + ["--log-path"] + [q] + c + [r];
    FirstThree();
    JoinHarness();
    LastThree();
    JoinOne("--log-path");
    JoinOne(q);
    JoinOne(r);
  }

  lemma FirstThree()
    ensures Join(["beacon", "ci", "exec"], " ") == "beacon ci exec"
  {
    hide Join;
    JoinTriple("beacon", "ci", "exec");
  }

  lemma JoinHarness()
    ensures Join(["--harness", "claude"], " ") == "--harness claude"
  {
    hide Join;
    JoinPair("--harness", "claude");
  }

  lemma LastThree()
    ensures Join(["--", "sh", "-c"], " ") == "-- sh -c"
  {
    hide Join;
    JoinTriple("--", "sh", "-c");
  }

  lemma JoinTriple(a: string, b: string, c: string)
    ensures Join([a, b, c], " ") == a + " " + b + " " + c
  {
    assert [a, b, c][1..] == [b, c] && [b, c][1..] == [c];
    assert Join([b, c], " ") == b + " " + c;
  }

  // ------------------------------------------ a command in the container

  datatype ExecOpts = ExecOpts(user: string, dir: string, homeDir: string, pathPrepend: seq<string>)

  const CONTAINER := "beacon-systemd"
  const SYSTEM_PATH := ":/usr/local/sbin:/usr/local/bin:/usr/sbin:/usr/bin:/sbin:/bin"
  const PASS_THROUGH := ["ANTHROPIC_API_KEY", "ANTHROPIC_AUTH_TOKEN", "CLAUDE_CODE_OAUTH_TOKEN"]

  /** `-e NAME` for each name: docker takes the value from its own environment. */
  function PassThrough(n: nat): seq<string>
    requires n <= |PASS_THROUGH|
  {
    if n == 0 then [] else PassThrough(n - 1) + ["-e", PASS_THROUGH[n - 1]]
  }

  /** The arguments docker is given. */
  function ExecArgs(opts: ExecOpts, stage: string): seq<string> {
    OptionArgs(opts) + PassThrough(|PASS_THROUGH|) + [CONTAINER, "sh", stage]
  }

  function OptionArgs(opts: ExecOpts): seq<string> {
    ["exec"]
    + (if opts.user != "" then ["-u", opts.user] else [])
    + (if opts.dir != "" then ["-w", opts.dir] else [])
    + (if opts.homeDir != "" then ["-e", "HOME=" + opts.homeDir] else [])
    + (if opts.pathPrepend != [] then ["-e", "PATH=" + Join(opts.pathPrepend, ":") + SYSTEM_PATH] else [])
  }

  method DockerFlags(opts: ExecOpts, stage: string) returns (flags: seq<string>)
    ensures flags == ExecArgs(opts, stage)
  {
    hide Join, SYSTEM_PATH, PASS_THROUGH;
    flags := ["exec"];
    if opts.user != "" {
      flags := flags + ["-u", opts.user];
    }
    if opts.dir != "" {
      flags := flags + ["-w", opts.dir];
    }
    if opts.homeDir != "" {
      flags := flags + ["-e", "HOME=" + opts.homeDir];
    }
    if |opts.pathPrepend| > 0 {
      flags := flags + ["-e", "PATH=" + Join(opts.pathPrepend, ":") + SYSTEM_PATH];
    }
    assert flags == OptionArgs(opts);
    hide OptionArgs;
    for i := 0 to |PASS_THROUGH|
      invariant flags == OptionArgs(opts) + PassThrough(i)
    {
      flags := flags + ["-e", PASS_THROUGH[i]];
    }
    flags := flags + [CONTAINER, "sh", stage];
  }

  /** The last line of the wrapper nestedGuest.Exec hands to the sandbox's shell: lexed there, it
      runs docker with every option and path whole. */
  method DockerLine(opts: ExecOpts, stage: string) returns (line: string)
    ensures var user := if opts.user != "" then ["-u", opts.user] else [];
            var dir := if opts.dir != "" then ["-w", opts.dir] else [];
            var home := if opts.homeDir != "" then ["-e", "HOME=" + opts.homeDir] else [];
            var system := ":/usr/local/sbin:/usr/local/bin:/usr/sbin:/usr/bin:/sbin:/bin";
            var path := if opts.pathPrepend != [] then ["-e", "PATH=" + Join(opts.pathPrepend, ":") + system] else [];
            var keys := ["-e", "ANTHROPIC_API_KEY", "-e", "ANTHROPIC_AUTH_TOKEN", "-e", "CLAUDE_CODE_OAUTH_TOKEN"];
            var args := ["exec"] + user + dir + home + path + keys + ["beacon-systemd", "sh", stage];
            Lex(line) == Some(Lexed(["exec", "docker"] + args, "\n"))
  {
    ArgsAre(opts, stage);
    hide Lex, Join, QuoteEach, ExecArgs;
    var flags := DockerFlags(opts, stage);
    var quoted := QuoteAll(flags);
    line := "exec docker " + Join(quoted, " ") + "\n";
    DockerLexes(flags);
  }

  lemma ArgsAre(opts: ExecOpts, stage: string)
    ensures var user := if opts.user != "" then ["-u", opts.user] else [];
            var dir := if opts.dir != "" then ["-w", opts.dir] else [];
            var home := if opts.homeDir != "" then ["-e", "HOME=" + opts.homeDir] else [];
            var system := ":/usr/local/sbin:/usr/local/bin:/usr/sbin:/usr/bin:/sbin:/bin";
            var path := if opts.pathPrepend != [] then ["-e", "PATH=" + Join(opts.pathPrepend, ":") + system] else [];
            var keys := ["-e", "ANTHROPIC_API_KEY", "-e", "ANTHROPIC_AUTH_TOKEN", "-e", "CLAUDE_CODE_OAUTH_TOKEN"];
            ExecArgs(opts, stage) == ["exec"] + user + dir + home + path + keys + ["beacon-systemd", "sh", stage]
  {
    hide Join;
    assert PassThrough(3)
        == ["-e", "ANTHROPIC_API_KEY", "-e", "ANTHROPIC_AUTH_TOKEN", "-e", "CLAUDE_CODE_OAUTH_TOKEN"] by {
      assert PassThrough(1) == [] + ["-e", PASS_THROUGH[0]];
      assert PassThrough(2) == PassThrough(1) + ["-e", PASS_THROUGH[1]];
    }
  }

  lemma DockerLexes(flags: seq<string>)
    requires flags != []
    ensures Lex("exec docker " + Join(QuoteEach(flags), " ") + "\n") == Some(Lexed(["exec", "docker"] + flags, "\n"))
  {
    hide AllSpell, Join, Scan, Plain;
    var head := ["exec", "docker"];
    DockerIsPlain();
    PlainWordsSpell(head);
    QuoteEachSpells(flags);
    SpellAppend(head, head, QuoteEach(flags), flags);
    JoinAppend(head, QuoteEach(flags), " ");
    JoinPair("exec", "docker");
    assert "exec docker " + Join(QuoteEach(flags), " ") == Join(head + QuoteEach(flags), " ");
    NewlineEnds();
    WordsLex(head + QuoteEach(flags), head + flags, "\n");
    assert head + flags + [] == head + flags;
  }

  lemma DockerIsPlain()
    ensures forall w | w in ["exec", "docker"] :: Plain(w)
  {
    assert Plain("exec") && Plain("docker");
  }

  lemma JoinPair(a: string, b: string)
    ensures Join([a, b], " ") == a + " " + b
  {
    assert [a, b][1..] == [b];
  }

  lemma NewlineEnds()
    ensures Scan(Gap, "", "\n") == Some(Lexed([], "\n"))
  {
  }
}
