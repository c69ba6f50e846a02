/** sh.c's recursive-descent parser, which advances a position in the line. */
module ShellParser {
  import opened ShellGrammar

  datatype Result = Done(cmd: Cmd) | Panic(message: string)

  lemma SliceOfTail(line: string, q: nat, s: nat)
    requires q <= s <= |line|
    ensures line[q..s] == line[q..][..s - q] && line[s..] == line[q..][s - q..]
  {
  }

  /** A parsing routine's result is the specification's, and so is where it stops. */
  ghost predicate Agrees(p: Parsed, r: Result, rest: string) {
    match p
    case Fail(m) => r == Panic(m)
    case Ok(cmd, end) => r == Done(cmd) && rest == end
  }

  lemma TokenAfterSkip(r: string)
    ensures GetToken(SkipSpace(r)) == GetToken(r)
  {
    SkipTwice(r);
  }

  /** The command node inside ret is shared: storing arguments in it changes ret. */
  function WithArgs(ret: Cmd, argv: seq<string>): Cmd {
    match ret
    case Exec(_) => Exec(argv)
    case Redir(cmd, file, mode, fd) => Redir(WithArgs(cmd, argv), file, mode, fd)
    case _ => ret
  }

  lemma {:induction false} WrapMore(c: Cmd, list: seq<Redirection>, d: Redirection)
    ensures Wrap(c, list + [d]) == Redir(Wrap(c, list), d.file, d.mode, d.fd)
    decreases |list|
  {
    if list == [] {
      assert list + [d] == [d];
    } else {
      assert (list + [d])[1..] == list[1..] + [d];
      WrapMore(Redir(c, list[0].file, list[0].mode, list[0].fd), list[1..], d);
    }
  }

  lemma {:induction false} WithArgsWrap(a: seq<string>, b: seq<string>, list: seq<Redirection>)
    ensures WithArgs(Wrap(Exec(a), list), b) == Wrap(Exec(b), list)
    decreases |list|
  {
    if list != [] {
      var last := |list| - 1;
      assert list[..last] + [list[last]] == list;
      WrapMore(Exec(a), list[..last], list[last]);
      WrapMore(Exec(b), list[..last], list[last]);
      WithArgsWrap(a, b, list[..last]);
    }
  }

  lemma {:induction false} WrapTwice(c: Cmd, l: seq<Redirection>, m: seq<Redirection>)
    ensures Wrap(Wrap(c, l), m) == Wrap(c, l + m)
    decreases |m|
  {
    if m == [] {
      assert l + m == l;
    } else {
      var last := |m| - 1;
      assert m[..last] + [m[last]] == m && l + m == l + m[..last] + [m[last]];
      WrapMore(Wrap(c, l), m[..last], m[last]);
      WrapMore(c, l + m[..last], m[last]);
      WrapTwice(c, l, m[..last]);
    }
  }

  /** The words argv and redirections list before those of p. */
  function Prefixed(argv: seq<string>, list: seq<Redirection>, p: Arguments): Arguments {
    match p
    case BadArguments(m) => p
    case Arguments(a, l, end) => Arguments(argv + a, list + l, end)
  }

  /** From r, parseexec's loop has taken the words argv and the redirections list, and rest is left. */
  ghost predicate ArgsFrom(r: string, argv: seq<string>, list: seq<Redirection>, rest: string) {
    |argv| < MAXARGS && ParseArgs(r, 0) == Prefixed(argv, list, ParseArgs(rest, |argv|))
  }

  /** A loop that ends at rest adds nothing, or panics. */
  lemma ArgsEnd(r: string, argv: seq<string>, list: seq<Redirection>, rest: string)
    requires ArgsFrom(r, argv, list, rest)
    requires var p := ParseArgs(rest, |argv|); p.Arguments? ==> p.argv == [] && p.list == []
    ensures var p := ParseArgs(rest, |argv|);
            ParseArgs(r, 0) == if p.Arguments? then Arguments(argv, list, p.rest) else p
  {
    assert argv + [] == argv && list + [] == list;
  }

  /** At rest, parseexec's loop takes one word and the redirections l. */
  ghost predicate WordStep(rest: string, argc: nat, word: string, l: seq<Redirection>, rest': string) {
    argc + 1 < MAXARGS && ParseArgs(rest, argc) == Prefixed([word], l, ParseArgs(rest', argc + 1))
  }

  lemma ArgsStep(rest: string, argc: nat, word: string, tail: string, l: seq<Redirection>, rest': string)
    requires argc + 1 < MAXARGS && !Peek(rest, "|)&;")
    requires GetToken(SkipSpace(rest)) == Token('a', word, tail) && ParseRedirs(tail) == Redirections(l, rest')
    ensures WordStep(rest, argc, word, l, rest')
  {
  }

  lemma RedirsJoin(a: seq<Redirection>, b: seq<Redirection>, c: seq<Redirection>)
    ensures a + (b + c) == a + b + c
  {
  }

  lemma PrefixedTwice(argv: seq<string>, list: seq<Redirection>, word: string, l: seq<Redirection>, p: Arguments)
    ensures Prefixed(argv, list, Prefixed([word], l, p)) == Prefixed(argv + [word], list + l, p)
  {
    if p.Arguments? {
      assert argv + ([word] + p.argv) == argv + [word] + p.argv;
      RedirsJoin(list, l, p.list);
    }
  }

  lemma ArgsMore(r: string, argv: seq<string>, list: seq<Redirection>, rest: string, word: string,
                 l: seq<Redirection>, rest': string)
    requires ArgsFrom(r, argv, list, rest) && WordStep(rest, |argv|, word, l, rest')
    ensures ArgsFrom(r, argv + [word], list + l, rest')
  {
    var argv', argc := argv + [word], |argv| + 1;
    assert |argv'| == argc;
    PrefixedTwice(argv, list, word, l, ParseArgs(rest', argc));
  }

  /** From r, the redirections in list come first and leave rest. */
  ghost predicate RedirsFrom(r: string, list: seq<Redirection>, rest: string) {
    ParseRedirs(r) == match ParseRedirs(rest)
                      case BadRedirection(m) => BadRedirection(m)
                      case Redirections(l, end) => Redirections(list + l, end)
  }

  lemma RedirsEnd(r: string, list: seq<Redirection>, rest: string)
    requires RedirsFrom(r, list, rest) && !Peek(rest, "<>")
    ensures ParseRedirs(r) == Redirections(list, SkipSpace(rest))
  {
    assert list + [] == list;
  }

  lemma RedirsFail(r: string, list: seq<Redirection>, rest: string)
    requires RedirsFrom(r, list, rest) && Peek(rest, "<>") && GetToken(GetToken(SkipSpace(rest)).rest).kind != 'a'
    ensures ParseRedirs(r) == BadRedirection("missing file for redirection")
  {
  }

  lemma RedirsMore(r: string, list: seq<Redirection>, rest: string, d: Redirection, rest': string)
    requires RedirsFrom(r, list, rest) && Peek(rest, "<>")
    requires var tok := GetToken(SkipSpace(rest)); var file := GetToken(tok.rest);
             file.kind == 'a' && d == RedirectionOf(tok.kind, file.text) && rest' == file.rest
    ensures RedirsFrom(r, list + [d], rest')
  {
    var p := ParseRedirs(rest');
    if p.Redirections? {
      RedirsJoin(list, [d], p.list);
    }
  }

  /** The line buffer and *ps; es is the line's end. */
  class Parser {
    const line: string
    var s: nat

    ghost predicate Valid()
      reads this
    {
      s <= |line| && '\0' !in line
    }

    /** What is left of the line. */
    ghost function Rest(): string
      reads this
      requires Valid()
    {
      line[s..]
    }

    constructor (text: string)
      requires '\0' !in text
      ensures Valid() && s == 0 && line == text && Rest() == text
    {
      line, s := text, 0;
    }

    /** The loop over blanks in gettoken and peek. */
    method Skip()
      requires Valid()
      modifies this
      ensures Valid() && Rest() == SkipSpace(old(Rest())) && s >= old(s)
    {
      while s < |line| && Space(line[s])
        invariant Valid() && s >= old(s) && SkipSpace(Rest()) == SkipSpace(old(Rest()))
      {
        assert Rest()[1..] == line[s + 1..];
        s := s + 1;
      }
    }

    /** gettoken's loop over the characters of a word. */
    method SkipWord()
      requires Valid()
      modifies this
      ensures Valid() && s == old(s) + WordLength(old(Rest()))
    {
      ghost var begin := s;
      while s < |line| && !Space(line[s]) && !Symbol(line[s])
        invariant Valid() && begin <= s && s + WordLength(Rest()) == begin + WordLength(old(Rest()))
      {
        assert line[s] in line;
        assert Rest()[1..] == line[s + 1..];
        s := s + 1;
      }
      assert s < |line| ==> !WordChar(Rest()[0]);
    }

    /** gettoken: the kind and text of the next token. */
    method Gettoken() returns (kind: char, text: string)
      requires Valid()
      modifies this
      ensures Valid() && GetToken(old(Rest())) == Token(kind, text, Rest())
      ensures s >= old(s) && (kind != '\0' ==> s > old(s))
    {
      ghost var before := Rest();
      Skip();
      ghost var r := Rest();
      var q := s;
      if s == |line| {
        kind, text := '\0', "";
      } else {
        assert line[s] in line;
        if Symbol(line[s]) {
          kind := line[s];
          s := s + 1;
          if kind == '>' && s < |line| && line[s] == '>' {
            kind := '+';
            s := s + 1;
          }
        } else {
          kind := 'a';
          SkipWord();
        }
        text := line[q..s];
        SliceOfTail(line, q, s);
      }
      ghost var from := s;
      Skip();
      assert SkipSpace(line[from..]) == Rest();
      SkipTwice(before);
      assert s >= from;
    }

    /** peek: also skips the blanks. */
    method PeekAt(toks: string) returns (found: bool)
      requires Valid()
      modifies this
      ensures Valid() && Rest() == SkipSpace(old(Rest())) && found == Peek(old(Rest()), toks) && s >= old(s)
    {
      Skip();
      found := s < |line| && line[s] in toks;
    }

    /** parseredirs: the redirections around cmd; the list is what the specification calls them. */
    method Parseredirs(cmd: Cmd) returns (r: Result)
      requires Valid()
      modifies this
      ensures Valid() && s >= old(s)
      ensures match ParseRedirs(old(Rest()))
              case BadRedirection(m) => r == Panic(m)
              case Redirections(l, rest) => r == Done(Wrap(cmd, l)) && Rest() == rest
    {
      var c := cmd;
      ghost var before, list := Rest(), [];
      while true
        invariant Valid() && s >= old(s) && c == Wrap(cmd, list) && RedirsFrom(before, list, Rest())
        decreases |line| - s
      {
        ghost var here := Rest();
        var more := PeekAt("<>");
        if !more {
          RedirsEnd(before, list, here);
          return Done(c);
        }
        var tok, op := Gettoken();
        var kind, file := Gettoken();
        if kind != 'a' {
          RedirsFail(before, list, here);
          return Panic("missing file for redirection");
        }
        var d := RedirectionOf(tok, file);
        RedirsMore(before, list, here, d, Rest());
        WrapMore(cmd, list, d);
        c := Redir(c, d.file, d.mode, d.fd);
        list := list + [d];
      }
    }

    /** parseexec: a block, or words with redirections among them. */
    method Parseexec() returns (r: Result)
      requires Valid()
      modifies this
      ensures Valid() && s >= old(s) && Agrees(ParseExec(old(Rest())), r, Rest())
      decreases |line| - s, 1
    {
      ghost var before := Rest();
      SkipTwice(before);
      var block := PeekAt("(");
      if block {
        r := Parseblock();
        return;
      }
      r := Parseredirs(Exec([]));
      if r.Panic? {
        return;
      }
      ghost var list0 := ParseRedirs(SkipSpace(before)).list;
      r := ParseWords(r.cmd, list0);
    }

    /** One round of parseexec's loop: r is set when it ends. Otherwise the word is stored in the
        command that ret wraps, and the redirections behind it are wrapped around ret. */
    method ParseWord(ret: Cmd, argv: seq<string>, ghost list: seq<Redirection>)
      returns (end: bool, r: Result, word: string, ghost l: seq<Redirection>)
      requires Valid() && |argv| < MAXARGS && ret == Wrap(Exec(argv), list)
      modifies this
      ensures Valid() && s >= old(s) && (!end ==> s > old(s) && |argv| + 1 < MAXARGS)
      ensures end ==> match ParseArgs(old(Rest()), |argv|)
                      case BadArguments(m) => r == Panic(m)
                      case Arguments(a, l, rest) => r == Done(ret) && a == [] && l == [] && Rest() == rest
      ensures !end ==> WordStep(old(Rest()), |argv|, word, l, Rest()) && r == Done(Wrap(Exec(argv + [word]), list + l))
    {
      word, l := "", [];
      ghost var here := Rest();
      SkipTwice(here);
      end := PeekAt("|)&;");
      if end {
        return true, Done(ret), "", [];
      }
      var tok;
      tok, word := Gettoken();
      if tok == '\0' {
        return true, Done(ret), "", [];
      }
      if tok != 'a' {
        return true, Panic("syntax"), "", [];
      }
      if |argv| + 1 >= MAXARGS {
        return true, Panic("too many args"), "", [];
      }
      WithArgsWrap(argv, argv + [word], list);
      ghost var tail := Rest();
      r := Parseredirs(WithArgs(ret, argv + [word]));
      end := r.Panic?;
      if !end {
        l := ParseRedirs(tail).list;
        WrapTwice(Exec(argv + [word]), list, l);
        ArgsStep(here, |argv|, word, tail, l, Rest());
      }
    }

    /** parseexec's loop; ret is the empty command with the redirections read so far around it. */
    method ParseWords(ret: Cmd, ghost list0: seq<Redirection>) returns (r: Result)
      requires Valid() && ret == Wrap(Exec([]), list0)
      modifies this
      ensures Valid() && s >= old(s)
      ensures match ParseArgs(old(Rest()), 0)
              case BadArguments(m) => r == Panic(m)
              case Arguments(a, l, rest) => r == Done(Wrap(Exec(a), list0 + l)) && Rest() == rest
    {
      var argv := [];
      ghost var before, list := Rest(), [];
      r := Done(ret);
      assert list0 + list == list0;
      while true
        invariant Valid() && s >= old(s) && |argv| < MAXARGS
        invariant r == Done(Wrap(Exec(argv), list0 + list)) && ArgsFrom(before, argv, list, Rest())
        decreases |line| - s
      {
        ghost var here := Rest();
        var end, word;
        ghost var l;
        end, r, word, l := ParseWord(r.cmd, argv, list0 + list);
        if end {
          ArgsEnd(before, argv, list, here);
          return;
        }
        ArgsMore(before, argv, list, here, word, l, Rest());
        RedirsJoin(list0, list, l);
        argv, list := argv + [word], list + l;
      }
    }

    /** parseblock. Its own first panic is not reachable: parseexec has seen the parenthesis. */
    method Parseblock() returns (r: Result)
      requires Valid() && Peek(Rest(), "(")
      modifies this
      ensures Valid() && s >= old(s) && Agrees(ParseBlock(old(Rest())), r, Rest())
      decreases |line| - s, 0
    {
      var tok, text := Gettoken();
      r := Parseline();
      if r.Panic? {
        return;
      }
      ghost var rest := Rest();
      SkipTwice(rest);
      var close := PeekAt(")");
      if !close {
        return Panic("syntax - missing )");
      }
      TokenAfterSkip(rest);
      tok, text := Gettoken();
      r := Parseredirs(r.cmd);
    }

    /** parsepipe. */
    method Parsepipe() returns (r: Result)
      requires Valid()
      modifies this
      ensures Valid() && s >= old(s) && Agrees(ParsePipe(old(Rest())), r, Rest())
      decreases |line| - s, 2
    {
      r := Parseexec();
      if r.Panic? {
        return;
      }
      ghost var rest := Rest();
      var bar := PeekAt("|");
      if bar {
        TokenAfterSkip(rest);
        var tok, text := Gettoken();
        var left := r.cmd;
        r := Parsepipe();
        if r.Done? {
          r := Done(Pipe(left, r.cmd));
        }
      }
    }

    /** parseline's loop over &. */
    method Parsebacks(c: Cmd) returns (cmd: Cmd)
      requires Valid()
      modifies this
      ensures Valid() && s >= old(s) && ParseBacks(c, old(Rest())) == Ok(cmd, Rest())
    {
      cmd := c;
      ghost var rest := Rest();
      var more := PeekAt("&");
      while more
        invariant Valid() && s >= old(s) && ParseBacks(cmd, rest) == ParseBacks(c, old(Rest()))
        invariant Rest() == SkipSpace(rest) && more == Peek(rest, "&")
        decreases |line| - s
      {
        TokenAfterSkip(rest);
        var tok, text := Gettoken();
        cmd := Back(cmd);
        rest := Rest();
        more := PeekAt("&");
      }
    }

    /** parseline. */
    method Parseline() returns (r: Result)
      requires Valid()
      modifies this
      ensures Valid() && s >= old(s) && Agrees(ParseLine(old(Rest())), r, Rest())
      decreases |line| - s, 3
    {
      r := Parsepipe();
      if r.Panic? {
        return;
      }
      var cmd := Parsebacks(r.cmd);
      r := Done(cmd);
      ghost var rest := Rest();
      var semicolon := PeekAt(";");
      if semicolon {
        TokenAfterSkip(rest);
        var tok, text := Gettoken();
        r := Parseline();
        if r.Done? {
          r := Done(List(cmd, r.cmd));
        }
      }
    }
  }

  /** parsecmd: the parser terminates on every line, and its result is the specification's. */
  method Parsecmd(line: string) returns (r: Result)
    requires '\0' !in line
    ensures r == match ParseCmd(line) case Ok(cmd, _) => Done(cmd) case Fail(m) => Panic(m)
  {
    var p := new Parser(line);
    r := p.Parseline();
    if r.Done? {
      var empty := p.PeekAt("");
      if p.s != |line| {
        r := Panic("syntax");
      }
    }
  }
}
