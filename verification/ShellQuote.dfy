/**
 The copy-pasteable command lines the setup wizard prints, against the part of the POSIX shell
 language they are read back with: token recognition and quote removal (sections 2.2 and 2.3 of
 the Shell Command Language).
 */
module ShellQuote {

  import opened Wrappers

  datatype ChildInvocation = ChildInvocation(env: seq<string>, args: seq<string>)

  // ---------------------------------------------------------------------------------------
  // Printing
  // ---------------------------------------------------------------------------------------

  const PROGRAM: string := "moltnet"

  /** The characters that bring quotes. */
  predicate Special(c: char) {
    || c == ' ' || c == '\t' || c == '\n' || c == '\'' || c == '"' || c == '$' || c == '`' || c == '\\'
    || c == '*' || c == '?' || c == '[' || c == ']' || c == '{' || c == '}' || c == '(' || c == ')'
    || c == '<' || c == '>' || c == '|' || c == '&' || c == ';' || c == '~'
  }

  predicate NeedsQuotes(s: string) {
    exists i | 0 <= i < |s| :: Special(s[i])
  }

  /** Every `'` closed, escaped and reopened. */
  function EscapeQuotes(s: string): (r: string) {
    if s == "" then "" else (if s[0] == '\'' then "'\\''" else [s[0]]) + EscapeQuotes(s[1..])
  }

  function ShellQuoteIfNeeded(s: string): (r: string)
    ensures r != ""
  {
    if s == "" then "''" else if !NeedsQuotes(s) then s else "'" + EscapeQuotes(s) + "'"
  }

  /** What stands before the first `=`. */
  function EnvKey(kv: string): (k: string) {
    if kv == "" || kv[0] == '=' then "" else [kv[0]] + EnvKey(kv[1..])
  }

  function EnvPlaceholder(kv: string): (s: string) {
    EnvKey(kv) + "=<value from $" + EnvKey(kv) + "> "
  }

  function EnvPart(env: seq<string>): (s: string) {
    if env == [] then "" else EnvPlaceholder(env[0]) + EnvPart(env[1..])
  }

  function ArgPart(args: seq<string>): (s: string) {
    if args == [] then "" else " " + ShellQuoteIfNeeded(args[0]) + ArgPart(args[1..])
  }

  function Rendered(invocation: ChildInvocation): (s: string) {
    EnvPart(invocation.env) + (PROGRAM + ArgPart(invocation.args))
  }

  lemma NextEnv(b: string, env: seq<string>, i: nat)
    requires i < |env|
    ensures b + EnvPart(env[i..]) == (b + EnvPlaceholder(env[i])) + EnvPart(env[i + 1..])
  {
    assert env[i..][1..] == env[i + 1..];
  }

  lemma NextArg(b: string, args: seq<string>, i: nat)
    requires i < |args|
    ensures b + ArgPart(args[i..]) == (b + (" " + ShellQuoteIfNeeded(args[i]))) + ArgPart(args[i + 1..])
  {
    assert args[i..][1..] == args[i + 1..];
  }

  method RenderChildInvocation(invocation: ChildInvocation) returns (b: string)
    ensures b == Rendered(invocation)
  {
    b := "";
    var env := invocation.env;
    for i := 0 to |env|
      invariant b + EnvPart(env[i..]) == EnvPart(env)
    {
      NextEnv(b, env, i);
      b := b + EnvPlaceholder(env[i]);
    }
    b := b + PROGRAM;
    var args := invocation.args;
    for i := 0 to |args|
      invariant b + ArgPart(args[i..]) == Rendered(invocation)
    {
      NextArg(b, args, i);
      b := b + (" " + ShellQuoteIfNeeded(args[i]));
    }
  }

  // ---------------------------------------------------------------------------------------
  // Reading back
  // ---------------------------------------------------------------------------------------

  /** Between words; inside a word, unquoted; inside single quotes; behind a backslash, which may
      or may not have a word in progress. */
  datatype Mode = Gap | Bare | Single | Escaped(inWord: bool)

  /** The characters section 2.2 has quoted if they are to stand for themselves, and those that may need
      it under certain circumstances. */
  predicate Posix(c: char) {
    || c == '|' || c == '&' || c == ';' || c == '<' || c == '>' || c == '(' || c == ')' || c == '$' || c == '`'
    || c == '\\' || c == '"' || c == '\'' || c == ' ' || c == '\t' || c == '\n'
    || c == '*' || c == '?' || c == '[' || c == '#' || c == '~' || c == '=' || c == '%'
  }

  /** Of these, the ones that are an operator or start an expansion wherever they stand unquoted. `#` is
      one only where a word could begin, `=` only in front of the command name, `%` only for job
      control. */
  predicate Active(c: char) {
    Posix(c) && c != '\\' && c != '\'' && c != ' ' && c != '\t' && c != '\n' && c != '#' && c != '=' && c != '%'
  }

  /** The printer's list leaves none of them out but those three. */
  lemma PrinterKnowsThem(c: char)
    ensures Posix(c) ==> Special(c) || c == '#' || c == '=' || c == '%'
  {
  }

  /** The words of the first command of `s` after quote removal, given the word `w` in progress and
      the words `ws` already complete; without `hash`, comments are not recognised. `None` is a text
      whose meaning goes beyond literal words: an
      unfinished quotation, or an unquoted character that is an operator or starts an expansion. */
  function Lex(s: string, mode: Mode, w: string, ws: seq<string>, hash: bool): (r: Option<seq<string>>)
    decreases |s|, if mode == Gap then 1 else 0
  {
    if s == "" then
      match mode
      case Gap => Some(ws)
      case Bare => Some(ws + [w])
      case _ => None
    else
      match mode
      case Gap =>
        if s[0] == ' ' || s[0] == '\t' then Lex(s[1..], Gap, "", ws, hash)
        else if s[0] == '\n' || (hash && s[0] == '#') then Some(ws)
        else if s[0] == '\\' then Lex(s[1..], Escaped(false), "", ws, hash)
        else Lex(s, Bare, "", ws, hash)
      case Bare =>
        if s[0] == ' ' || s[0] == '\t' then Lex(s[1..], Gap, "", ws + [w], hash)
        else if s[0] == '\n' then Some(ws + [w])
        else if s[0] == '\'' then Lex(s[1..], Single, w, ws, hash)
        else if s[0] == '\\' then Lex(s[1..], Escaped(true), w, ws, hash)
        else if Active(s[0]) then None
        else Lex(s[1..], Bare, w + [s[0]], ws, hash)
      case Single =>
        if s[0] == '\'' then Lex(s[1..], Bare, w, ws, hash) else Lex(s[1..], Single, w + [s[0]], ws, hash)
      case Escaped(inWord) =>
        if s[0] == '\n' then Lex(s[1..], if inWord then Bare else Gap, w, ws, hash)
        else Lex(s[1..], Bare, w + [s[0]], ws, hash)
  }

  /** The words of the first command of a script. */
  function Words(script: string): (r: Option<seq<string>>) {
    Lex(script, Gap, "", [], true)
  }

  lemma {:induction false} LexPlain(s: string, rest: string, w: string, ws: seq<string>, hash: bool)
    requires !NeedsQuotes(s)
    ensures Lex(s + rest, Bare, w, ws, hash) == Lex(rest, Bare, w + s, ws, hash)
    decreases |s|
  {
    if s == "" {
      assert s + rest == rest && w + s == w;
    } else {
      assert !Special(s[0]);
      assert (s + rest)[1..] == s[1..] + rest;
      assert w + [s[0]] + s[1..] == w + s;
      LexPlain(s[1..], rest, w + [s[0]], ws, hash);
    }
  }

  /** One escaped quote inside single quotes is one quote. */
  lemma LexEscapedQuote(s: string, t: string, u: string, rest: string, w: string, ws: seq<string>, hash: bool)
    requires s == "\\" + t && t == "'" + u && u == "'" + rest
    ensures Lex("'" + s, Single, w, ws, hash) == Lex(rest, Single, w + "'", ws, hash)
  {
    LexQuote(s, w, ws, hash);
    LexBackslash(t, w, ws, hash);
    LexEscaped(u, w, ws, hash);
    LexReopen(rest, w + "'", ws, hash);
  }

  lemma FourAndMore(a: char, b: char, c: char, d: char, rest: string)
    ensures [a, b, c, d] + rest == [a] + ([b] + ([c] + ([d] + rest)))
  {
  }

  lemma LexQuote(rest: string, w: string, ws: seq<string>, hash: bool)
    ensures Lex("'" + rest, Single, w, ws, hash) == Lex(rest, Bare, w, ws, hash)
  {
    assert ("'" + rest)[1..] == rest;
  }

  lemma LexBackslash(rest: string, w: string, ws: seq<string>, hash: bool)
    ensures Lex("\\" + rest, Bare, w, ws, hash) == Lex(rest, Escaped(true), w, ws, hash)
  {
    assert ("\\" + rest)[1..] == rest;
  }

  lemma LexEscaped(rest: string, w: string, ws: seq<string>, hash: bool)
    ensures Lex("'" + rest, Escaped(true), w, ws, hash) == Lex(rest, Bare, w + "'", ws, hash)
  {
    assert ("'" + rest)[1..] == rest;
  }

  lemma LexReopen(rest: string, w: string, ws: seq<string>, hash: bool)
    ensures Lex("'" + rest, Bare, w, ws, hash) == Lex(rest, Single, w, ws, hash)
  {
    assert ("'" + rest)[1..] == rest;
  }

  lemma LexSpace(rest: string, w: string, ws: seq<string>, hash: bool)
    ensures Lex(" " + rest, Bare, w, ws, hash) == Lex(rest, Gap, "", ws + [w], hash)
  {
    assert (" " + rest)[1..] == rest;
  }

  lemma {:induction false} LexQuoted(s: string, rest: string, w: string, ws: seq<string>, hash: bool)
    ensures Lex(EscapeQuotes(s) + ("'" + rest), Single, w, ws, hash) == Lex(rest, Bare, w + s, ws, hash)
    decreases |s|
  {
    var tail := "'" + rest;
    if s == "" {
      assert EscapeQuotes(s) + tail == tail && tail[1..] == rest && w + s == w;
    } else {
      assert w + [s[0]] + s[1..] == w + s;
      var more := EscapeQuotes(s[1..]) + tail;
      if s[0] == '\'' {
        assert EscapeQuotes(s) + tail == "'\\''" + more;
        FourAndMore('\'', '\\', '\'', '\'', more);
        LexEscapedQuote("\\" + ("'" + ("'" + more)), "'" + ("'" + more), "'" + more, more, w, ws, hash);
      } else {
        assert EscapeQuotes(s) + tail == [s[0]] + more;
        assert ([s[0]] + more)[1..] == more;
      }
      LexQuoted(s[1..], rest, w + [s[0]], ws, hash);
    }
  }

  /** The shell takes an unquoted argument that starts with `#` for a comment. */
  predicate ReadsAsComment(arg: string) {
    arg != "" && arg[0] == '#' && !NeedsQuotes(arg)
  }

  lemma LexUnquotedArg(arg: string, rest: string, ws: seq<string>, hash: bool)
    requires arg != "" && !NeedsQuotes(arg)
    ensures Lex(arg + rest, Gap, "", ws, hash)
         == if hash && arg[0] == '#' then Some(ws) else Lex(rest, Bare, arg, ws, hash)
  {
    assert !Special(arg[0]) && (arg + rest)[0] == arg[0];
    LexPlain(arg, rest, "", ws, hash);
    assert "" + arg == arg;
  }

  lemma LexQuotedArg(arg: string, rest: string, ws: seq<string>, hash: bool)
    ensures Lex("'" + (EscapeQuotes(arg) + ("'" + rest)), Gap, "", ws, hash) == Lex(rest, Bare, arg, ws, hash)
  {
    var inner := EscapeQuotes(arg) + ("'" + rest);
    assert ("'" + inner)[0] == '\'';
    LexReopen(inner, "", ws, hash);
    LexQuoted(arg, rest, "", ws, hash);
    assert "" + arg == arg;
  }

  /** One printed argument, read from its first character on. */
  lemma LexOneArg(arg: string, rest: string, ws: seq<string>, hash: bool)
    ensures Lex(ShellQuoteIfNeeded(arg) + rest, Gap, "", ws, hash)
         == if hash && ReadsAsComment(arg) then Some(ws) else Lex(rest, Bare, arg, ws, hash)
  {
    if arg != "" && !NeedsQuotes(arg) {
      LexUnquotedArg(arg, rest, ws, hash);
    } else {
      QuotedForm(arg, rest);
      LexQuotedArg(arg, rest, ws, hash);
    }
  }

  lemma QuotedForm(arg: string, rest: string)
    requires arg == "" || NeedsQuotes(arg)
    ensures ShellQuoteIfNeeded(arg) + rest == "'" + (EscapeQuotes(arg) + ("'" + rest))
  {
  }

  /** The arguments in front of the first one that reads as a comment. */
  function UpToComment(args: seq<string>): (r: seq<string>)
    ensures r <= args
    ensures r == args <==> forall i | 0 <= i < |args| :: !ReadsAsComment(args[i])
  {
    if args == [] then []
    else if ReadsAsComment(args[0]) then []
    else
      var more := UpToComment(args[1..]);
      assert forall i | 0 < i < |args| :: args[i] == args[1..][i - 1];
      [args[0]] + more
  }

  /** The arguments a reader takes in. */
  function Heeded(args: seq<string>, hash: bool): (r: seq<string>) {
    if hash then UpToComment(args) else args
  }

  /** A text that ends the command line: nothing more, or a next line. */
  predicate EndsLine(tail: string) {
    tail == "" || tail[0] == '\n'
  }

  lemma {:induction false} LexArgs(args: seq<string>, tail: string, w: string, ws: seq<string>, hash: bool)
    requires EndsLine(tail)
    ensures Lex(ArgPart(args) + tail, Bare, w, ws, hash) == Some(ws + [w] + Heeded(args, hash))
    decreases |args|
  {
    if args == [] {
      assert ArgPart(args) + tail == tail;
      AppendMore(ws + [w], w, []);
    } else {
      var a, more := args[0], args[1..];
      var rest := ArgPart(more) + tail;
      ArgPartForm(args, tail);
      LexSpace(ShellQuoteIfNeeded(a) + rest, w, ws, hash);
      LexOneArg(a, rest, ws + [w], hash);
      LexArgs(more, tail, a, ws + [w], hash);
      AppendMore(ws + [w], a, Heeded(more, hash));
      assert args == [a] + more;
    }
  }

  lemma ArgPartForm(args: seq<string>, tail: string)
    requires args != []
    ensures ArgPart(args) + tail == " " + (ShellQuoteIfNeeded(args[0]) + (ArgPart(args[1..]) + tail))
  {
  }

  lemma AppendMore<T>(a: seq<T>, x: T, b: seq<T>)
    ensures a + [x] + b == a + ([x] + b)
    ensures a + [] == a
  {
  }

  // ---------------------------------------------------------------------------------------
  // Main results
  // ---------------------------------------------------------------------------------------

  /** What the shell makes of a printed command: the program and its arguments, up to the first
      argument that reads as a comment. */
  lemma PrintedWords(program: string, args: seq<string>, tail: string)
    requires program != "" && !NeedsQuotes(program) && program[0] != '#'
    requires EndsLine(tail)
    ensures Words(program + ArgPart(args) + tail) == Some([program] + UpToComment(args))
  {
    LexCommand(program, args, tail, true);
  }

  lemma LexCommand(program: string, args: seq<string>, tail: string, hash: bool)
    requires program != "" && !NeedsQuotes(program) && program[0] != '#'
    requires EndsLine(tail)
    ensures Lex(program + ArgPart(args) + tail, Gap, "", [], hash) == Some([program] + Heeded(args, hash))
  {
    assert program + ArgPart(args) + tail == program + (ArgPart(args) + tail);
    LexOneArg(program, ArgPart(args) + tail, [], hash);
    LexArgs(args, tail, program, [], hash);
    assert [] + [program] == [program];
  }

  /** Printed commands parse back to exactly the arguments given, whatever follows the line, if and
      only if no argument starts with `#` and is free of every character that brings quotes. */
  lemma ParsesBackIff(invocation: ChildInvocation, tail: string)
    requires EndsLine(tail)
    ensures Words(Rendered(invocation)[|EnvPart(invocation.env)|..] + tail) == Some([PROGRAM] + invocation.args)
       <==> forall i | 0 <= i < |invocation.args| :: !ReadsAsComment(invocation.args[i])
  {
    var args := invocation.args;
    assert Rendered(invocation)[|EnvPart(invocation.env)|..] == PROGRAM + ArgPart(args);
    PrintedWords(PROGRAM, args, tail);
    SameRest(PROGRAM, UpToComment(args), args);
  }

  lemma SameRest<T>(x: T, a: seq<T>, b: seq<T>)
    ensures [x] + a == [x] + b <==> a == b
  {
    assert ([x] + a)[1..] == a && ([x] + b)[1..] == b;
  }

  /** The witness: such an argument is dropped, and every one behind it. */
  lemma CommentIsDropped(comment: string, args: seq<string>)
    requires ReadsAsComment(comment)
    ensures ReadsAsComment("#general")
    ensures Words(PROGRAM + ArgPart([comment] + args) + "") == Some([PROGRAM])
  {
    PrintedWords(PROGRAM, [comment] + args, "");
    AppendMore([PROGRAM], comment, args);
  }

  /** Any two argument lists that print the same are the same, so one command cannot pass for another:
      a reader who ignores comments reads each back whole. */
  lemma ArgPartInjective(a: seq<string>, b: seq<string>)
    requires ArgPart(a) == ArgPart(b)
    ensures a == b
  {
    LexCommand(PROGRAM, a, "", false);
    LexCommand(PROGRAM, b, "", false);
    SameRest(PROGRAM, a, b);
  }

  lemma {:induction false} EnvKeyStopsAtEquals(key: string, value: string)
    requires '=' !in key
    ensures EnvKey(key + "=" + value) == key
  {
    var kv := key + "=" + value;
    if key != "" {
      assert kv[1..] == key[1..] + "=" + value;
      EnvKeyStopsAtEquals(key[1..], value);
    }
  }

  /** The printer leaves an argument as it is if and only if it has none of these characters. */
  lemma BareIff(arg: string)
    ensures ShellQuoteIfNeeded(arg) == arg
       <==> arg != "" && forall i | 0 <= i < |arg| :: arg[i] !in " \t\n'\"$`\\*?[]{}()<>|&;~"
  {
    if NeedsQuotes(arg) {
      var i :| 0 <= i < |arg| && Special(arg[i]);
      EscapeGrows(arg);
    }
  }

  lemma {:induction false} EscapeGrows(s: string)
    ensures |EscapeQuotes(s)| >= |s| && ('\'' !in s ==> EscapeQuotes(s) == s)
  {
    if s != "" {
      EscapeGrows(s[1..]);
    }
  }

  lemma {:induction false} EnvCut(env: seq<string>, i: nat)
    requires i < |env|
    ensures EnvPart(env) == EnvPart(env[..i]) + (EnvPlaceholder(env[i]) + EnvPart(env[i + 1..]))
    decreases i
  {
    if i == 0 {
      assert EnvPart(env[..0]) == "";
    } else {
      EnvCut(env[1..], i - 1);
      assert env[..i][1..] == env[1..][..i - 1] && env[1..][i - 1 + 1..] == env[i + 1..];
      EnvFirst(env[..i]);
      EnvFirst(env);
      Regroup(EnvPlaceholder(env[0]), EnvPart(env[..i][1..]), EnvPlaceholder(env[i]) + EnvPart(env[i + 1..]));
    }
  }

  lemma EnvFirst(env: seq<string>)
    requires env != []
    ensures EnvPart(env) == EnvPlaceholder(env[0]) + EnvPart(env[1..])
  {
  }

  function ArgText(arg: string): (s: string) {
    " " + ShellQuoteIfNeeded(arg)
  }

  lemma ArgFirst(args: seq<string>)
    requires args != []
    ensures ArgPart(args) == ArgText(args[0]) + ArgPart(args[1..])
  {
  }

  lemma Regroup(a: string, b: string, c: string)
    ensures (a + b) + c == a + (b + c)
  {
  }

  lemma {:induction false} ArgCut(args: seq<string>, i: nat)
    requires i < |args|
    ensures ArgPart(args) == ArgPart(args[..i]) + (ArgText(args[i]) + ArgPart(args[i + 1..]))
    decreases i
  {
    ArgFirst(args);
    if i == 0 {
      assert ArgPart(args[..0]) == "";
    } else {
      ArgCut(args[1..], i - 1);
      ArgFirst(args[..i]);
      assert args[..i][1..] == args[1..][..i - 1] && args[1..][i - 1 + 1..] == args[i + 1..];
      Regroup(ArgText(args[0]), ArgPart(args[..i][1..]), ArgText(args[i]) + ArgPart(args[i + 1..]));
    }
  }

  lemma {:induction false} KeyOfEntry(entry: string, key: string)
    requires '=' !in key && (entry == key || key + "=" <= entry)
    ensures EnvKey(entry) == key
    decreases |key|
  {
    if key != "" {
      assert entry[0] == key[0];
      if entry != key {
        assert (key + "=")[1..] == key[1..] + "=";
      }
      KeyOfEntry(entry[1..], key[1..]);
    }
  }

  /** Every entry of the environment stands in the printed text, behind those before it: its key and where the
      value comes from. */
  lemma EntryIsShown(invocation: ChildInvocation, i: nat, key: string)
    requires i < |invocation.env| && '=' !in key
    requires invocation.env[i] == key || key + "=" <= invocation.env[i]
    ensures EnvPart(invocation.env[..i]) + (key + "=<value from $" + key + "> ") <= Rendered(invocation)
  {
    EnvCut(invocation.env, i);
    KeyOfEntry(invocation.env[i], key);
  }

  /** So does every argument, behind one blank: as it is, or in single quotes. */
  lemma ArgumentIsShown(invocation: ChildInvocation, i: nat)
    requires i < |invocation.args| && '\'' !in invocation.args[i]
    ensures var arg := invocation.args[i];
            var shown := if arg != "" && !NeedsQuotes(arg) then " " + arg else " '" + arg + "'";
            EnvPart(invocation.env) + (PROGRAM + (ArgPart(invocation.args[..i]) + shown)) <= Rendered(invocation)
  {
    var args := invocation.args;
    ArgCut(args, i);
    EscapeGrows(args[i]);
    Prefixed(EnvPart(invocation.env), PROGRAM, ArgPart(args[..i]), ArgText(args[i]), ArgPart(args[i + 1..]));
    QuotedText(args[i]);
  }

  lemma QuotedText(arg: string)
    requires EscapeQuotes(arg) == arg
    ensures ArgText(arg) == if arg != "" && !NeedsQuotes(arg) then " " + arg else " '" + arg + "'"
  {
  }

  lemma Prefixed(a: string, b: string, c: string, d: string, e: string)
    ensures a + (b + (c + d)) <= a + (b + (c + (d + e)))
  {
    Regroup(c, d, e);
    Regroup(b, c + d, e);
    Regroup(a, b + (c + d), e);
  }

  function Assignments(keys: seq<string>, values: seq<string>): (env: seq<string>)
    requires |keys| == |values|
    ensures |env| == |keys|
  {
    seq(|keys|, i requires 0 <= i < |keys| => keys[i] + "=" + values[i])
  }

  lemma {:induction false} EnvPartOfKeys(e1: seq<string>, e2: seq<string>)
    requires |e1| == |e2| && forall i | 0 <= i < |e1| :: EnvKey(e1[i]) == EnvKey(e2[i])
    ensures EnvPart(e1) == EnvPart(e2)
    decreases |e1|
  {
    if e1 != [] {
      EnvPartOfKeys(e1[1..], e2[1..]);
    }
  }

  /** No environment value reaches the printed text. */
  lemma ValuesAreHidden(keys: seq<string>, v1: seq<string>, v2: seq<string>, args: seq<string>)
    requires |keys| == |v1| == |v2| && forall i | 0 <= i < |keys| :: '=' !in keys[i]
    ensures Rendered(ChildInvocation(Assignments(keys, v1), args))
         == Rendered(ChildInvocation(Assignments(keys, v2), args))
  {
    var e1, e2 := Assignments(keys, v1), Assignments(keys, v2);
    forall i | 0 <= i < |e1| ensures EnvKey(e1[i]) == EnvKey(e2[i]) {
      EnvKeyStopsAtEquals(keys[i], v1[i]);
      EnvKeyStopsAtEquals(keys[i], v2[i]);
    }
    EnvPartOfKeys(e1, e2);
  }
}
