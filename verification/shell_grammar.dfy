/** sh.c's command language: what each parsing routine makes of the rest of the line, and how to print
    a command so that it parses back. */
module ShellGrammar {
  const MAXARGS := 10
  const O_RDONLY := 0
  const O_WRONLY_CREATE := 0x201

  datatype Cmd =
    | Exec(argv: seq<string>)
    | Redir(cmd: Cmd, file: string, mode: int, fd: int)
    | Pipe(left: Cmd, right: Cmd)
    | List(left: Cmd, right: Cmd)
    | Back(cmd: Cmd)

  /** A parsed command and the rest of the line, or the panic's message. */
  datatype Parsed = Ok(cmd: Cmd, rest: string) | Fail(message: string)

  predicate Space(c: char) {
    c in " \t\r\n\U{000B}"
  }

  predicate Symbol(c: char) {
    c in "<|>&;()"
  }

  predicate WordChar(c: char) {
    !Space(c) && !Symbol(c) && c != '\0'
  }

  // ----- tokens -----

  function SkipSpace(r: string): (s: string)
    ensures |s| <= |r| && (s != "" ==> !Space(s[0]))
  {
    if r != "" && Space(r[0]) then SkipSpace(r[1..]) else r
  }

  /** The length of the longest word that r begins with. */
  function WordLength(r: string): (n: nat)
    ensures n <= |r| && forall i :: 0 <= i < n ==> WordChar(r[i])
    ensures n < |r| ==> !WordChar(r[n])
  {
    if r != "" && WordChar(r[0]) then 1 + WordLength(r[1..]) else 0
  }

  /** gettoken's result: its kind (0 at the end, 'a' for a word, '+' for >>), its text, and the rest. */
  datatype Token = Token(kind: char, text: string, rest: string)

  predicate LegalWord(w: string) {
    w != "" && forall i :: 0 <= i < |w| ==> WordChar(w[i])
  }

  function GetToken(r: string): (t: Token)
    ensures |t.rest| <= |r| && (t.kind != '\0' ==> |t.rest| < |r|)
    ensures t.kind == 'a' ==> LegalWord(t.text)
  {
    var s := SkipSpace(r);
    if s == "" || s[0] == '\0' then Token('\0', "", s)
    else if Symbol(s[0]) then
      var n := if s[0] == '>' && |s| > 1 && s[1] == '>' then 2 else 1;
      Token(if n == 2 then '+' else s[0], s[..n], SkipSpace(s[n..]))
    else
      var n := WordLength(s);
      Token('a', s[..n], SkipSpace(s[n..]))
  }

  /** peek: does r, after blanks, begin with one of toks? */
  predicate Peek(r: string, toks: string) {
    SkipSpace(r) != "" && SkipSpace(r)[0] in toks
  }

  // ----- the grammar -----

  datatype Redirection = Redirection(file: string, mode: int, fd: int)

  datatype Redirections = Redirections(list: seq<Redirection>, rest: string) | BadRedirection(message: string)

  /** The redirection that operator and file name make; >> is treated as >. */
  function RedirectionOf(kind: char, file: string): Redirection {
    if kind == '<' then Redirection(file, O_RDONLY, 0) else Redirection(file, O_WRONLY_CREATE, 1)
  }

  function ParseRedirs(r: string): (p: Redirections)
    ensures p.Redirections? ==> |p.rest| <= |r|
    decreases |r|
  {
    var s := SkipSpace(r);
    if !Peek(r, "<>") then Redirections([], s)
    else
      var tok := GetToken(s);
      var file := GetToken(tok.rest);
      if file.kind != 'a' then BadRedirection("missing file for redirection")
      else
        match ParseRedirs(file.rest)
        case BadRedirection(m) => BadRedirection(m)
        case Redirections(l, rest) => Redirections([RedirectionOf(tok.kind, file.text)] + l, rest)
  }

  /** cmd with the redirections around it, the first innermost. */
  function Wrap(cmd: Cmd, list: seq<Redirection>): Cmd
    decreases |list|
  {
    if list == [] then cmd else Wrap(Redir(cmd, list[0].file, list[0].mode, list[0].fd), list[1..])
  }

  datatype Arguments = Arguments(argv: seq<string>, list: seq<Redirection>, rest: string)
    | BadArguments(message: string)

  /** parseexec's loop, with argc arguments so far. */
  function ParseArgs(r: string, argc: nat): (p: Arguments)
    requires argc < MAXARGS
    ensures p.Arguments? ==> |p.rest| <= |r| && argc + |p.argv| < MAXARGS
    decreases |r|
  {
    var s := SkipSpace(r);
    if Peek(r, "|)&;") then Arguments([], [], s)
    else
      var tok := GetToken(s);
      if tok.kind == '\0' then Arguments([], [], tok.rest)
      else if tok.kind != 'a' then BadArguments("syntax")
      else if argc + 1 >= MAXARGS then BadArguments("too many args")
      else
        match ParseRedirs(tok.rest)
        case BadRedirection(m) => BadArguments(m)
        case Redirections(l, rest) =>
          match ParseArgs(rest, argc + 1)
          case BadArguments(m) => BadArguments(m)
          case Arguments(a, l', rest') => Arguments([tok.text] + a, l + l', rest')
  }

  function ParsePipe(r: string): (p: Parsed)
    ensures p.Ok? ==> |p.rest| <= |r|
    decreases |r|, 2
  {
    match ParseExec(r)
    case Fail(m) => Fail(m)
    case Ok(left, rest) =>
      if !Peek(rest, "|") then Ok(left, SkipSpace(rest))
      else
        match ParsePipe(GetToken(rest).rest)
        case Fail(m) => Fail(m)
        case Ok(right, rest') => Ok(Pipe(left, right), rest')
  }

  /** parseline's loop over &. */
  function ParseBacks(cmd: Cmd, r: string): (p: Parsed)
    ensures p.Ok? && |p.rest| <= |r|
    decreases |r|
  {
    if Peek(r, "&") then ParseBacks(Back(cmd), GetToken(r).rest) else Ok(cmd, SkipSpace(r))
  }

  function ParseLine(r: string): (p: Parsed)
    ensures p.Ok? ==> |p.rest| <= |r|
    decreases |r|, 3
  {
    match ParsePipe(r)
    case Fail(m) => Fail(m)
    case Ok(cmd, rest) =>
      var b := ParseBacks(cmd, rest);
      if !Peek(b.rest, ";") then Ok(b.cmd, SkipSpace(b.rest))
      else
        match ParseLine(GetToken(b.rest).rest)
        case Fail(m) => Fail(m)
        case Ok(right, rest') => Ok(List(b.cmd, right), rest')
  }

  function ParseBlock(r: string): (p: Parsed)
    requires Peek(r, "(")
    ensures p.Ok? ==> |p.rest| <= |r|
    decreases |r|, 0
  {
    match ParseLine(GetToken(r).rest)
    case Fail(m) => Fail(m)
    case Ok(cmd, rest) =>
      if !Peek(rest, ")") then Fail("syntax - missing )")
      else
        match ParseRedirs(GetToken(rest).rest)
        case BadRedirection(m) => Fail(m)
        case Redirections(l, rest') => Ok(Wrap(cmd, l), rest')
  }

  function ParseExec(r: string): (p: Parsed)
    ensures p.Ok? ==> |p.rest| <= |r|
    decreases |r|, 1
  {
    var s := SkipSpace(r);
    if Peek(r, "(") then ParseBlock(s)
    else
      match ParseRedirs(s)
      case BadRedirection(m) => Fail(m)
      case Redirections(l, rest) =>
        match ParseArgs(rest, 0)
        case BadArguments(m) => Fail(m)
        case Arguments(a, l', rest') => Ok(Wrap(Exec(a), l + l'), rest')
  }

  /** parsecmd: nothing may be left over. */
  function ParseCmd(line: string): Parsed {
    match ParseLine(line)
    case Fail(m) => Fail(m)
    case Ok(cmd, rest) => if SkipSpace(rest) == "" then Ok(cmd, "") else Fail("syntax")
  }

  // ----- printing -----

  predicate LegalWords(argv: seq<string>) {
    forall w :: w in argv ==> LegalWord(w)
  }

  predicate LegalRedirection(d: Redirection) {
    LegalWord(d.file) && ((d.mode == O_RDONLY && d.fd == 0) || (d.mode == O_WRONLY_CREATE && d.fd == 1))
  }

  predicate LegalRedirections(list: seq<Redirection>) {
    forall d :: d in list ==> LegalRedirection(d)
  }

  /** The commands that a line can say: fewer than MAXARGS words per command, redirections of the two
      kinds there are. */
  predicate Legal(c: Cmd) {
    match c
    case Exec(argv) => |argv| < MAXARGS && LegalWords(argv)
    case Redir(cmd, file, mode, fd) => Legal(cmd) && LegalRedirection(Redirection(file, mode, fd))
    case Pipe(l, r) => Legal(l) && Legal(r)
    case List(l, r) => Legal(l) && Legal(r)
    case Back(cmd) => Legal(cmd)
  }

  function PrintArgs(argv: seq<string>): string {
    if argv == [] then "" else argv[0] + " " + PrintArgs(argv[1..])
  }

  /** A command as a line, every operand in parentheses. */
  function Print(c: Cmd): string
    decreases c, 0
  {
    match c
    case Exec(argv) => PrintArgs(argv)
    case Redir(cmd, file, mode, _) => Paren(cmd) + (if mode == O_RDONLY then "<" else ">") + file
    case Pipe(l, r) => Paren(l) + "|" + Paren(r)
    case List(l, r) => Paren(l) + ";" + Paren(r)
    case Back(cmd) => Paren(cmd) + "&"
  }

  function Paren(c: Cmd): string
    decreases c, 1
  {
    "(" + Print(c) + ")"
  }

  // ----- what is printed parses back -----

  lemma {:induction false} WordThenEnd(w: string, k: string)
    requires forall i :: 0 <= i < |w| ==> WordChar(w[i])
    requires k == "" || !WordChar(k[0])
    ensures WordLength(w + k) == |w|
  {
    if w == "" {
      assert w + k == k;
    } else {
      assert (w + k)[1..] == w[1..] + k;
      WordThenEnd(w[1..], k);
    }
  }

  /** A word is read whole up to a blank, a symbol or the end. */
  lemma WordToken(w: string, k: string)
    requires LegalWord(w) && (k == "" || !WordChar(k[0]))
    ensures GetToken(w + k) == Token('a', w, SkipSpace(k))
  {
    WordThenEnd(w, k);
    assert (w + k)[0] == w[0];
    assert (w + k)[..|w|] == w && (w + k)[|w|..] == k;
  }

  /** A symbol that is not > or that no second > follows. */
  lemma SymbolToken(c: char, k: string)
    requires Symbol(c) && (c == '>' ==> k == "" || k[0] != '>')
    ensures GetToken([c] + k) == Token(c, [c], SkipSpace(k)) && SkipSpace([c] + k) == [c] + k
  {
    assert ([c] + k)[1..] == k && ([c] + k)[..1] == [c];
  }

  /** A tail that ends a command list: nothing, or the closing parenthesis of a block. */
  predicate Closing(k: string) {
    k == "" || k[0] == ')'
  }

  lemma NoRedirs(k: string)
    requires k == "" || (!Space(k[0]) && k[0] !in "<>")
    ensures ParseRedirs(k) == Redirections([], k)
  {
  }

  /** parseexec's loop takes a printed word and goes on behind it. */
  lemma OneArg(w: string, more: string, argc: nat)
    requires LegalWord(w) && argc + 1 < MAXARGS && ParseRedirs(more) == Redirections([], more)
             && (more == "" || !Space(more[0]))
    ensures ParseArgs(w + (" " + more), argc) ==
            match ParseArgs(more, argc + 1)
            case BadArguments(m) => BadArguments(m)
            case Arguments(a, l, rest) => Arguments([w] + a, [] + l, rest)
  {
    var r := w + (" " + more);
    WordToken(w, " " + more);
    assert (" " + more)[1..] == more && SkipSpace(" " + more) == more;
    assert r[0] == w[0] && WordChar(w[0]);
    assert SkipSpace(r) == r && !Peek(r, "|)&;");
  }

  lemma FirstWord(argv: seq<string>)
    requires LegalWords(argv) && argv != []
    ensures LegalWord(argv[0]) && LegalWords(argv[1..])
  {
    assert argv[0] in argv;
  }

  /** What PrintArgs begins with is no blank and no redirection. */
  lemma ArgsStart(argv: seq<string>, k: string)
    requires Closing(k) && LegalWords(argv)
    ensures var r := PrintArgs(argv) + k; r == "" || (!Space(r[0]) && r[0] !in "<>(|&;")
  {
    if argv == [] {
      assert PrintArgs(argv) + k == k;
    } else {
      FirstWord(argv);
      assert WordChar(argv[0][0]) && (PrintArgs(argv) + k)[0] == argv[0][0];
    }
  }

  lemma MoreArgs(argv: seq<string>, k: string)
    requires Closing(k) && LegalWords(argv)
    ensures var more := PrintArgs(argv) + k;
            ParseRedirs(more) == Redirections([], more) && (more == "" || !Space(more[0]))
  {
    ArgsStart(argv, k);
    NoRedirs(PrintArgs(argv) + k);
  }

  lemma {:induction false} ArgsRoundTrip(argv: seq<string>, k: string, argc: nat)
    requires argc + |argv| < MAXARGS && Closing(k) && LegalWords(argv)
    ensures ParseArgs(PrintArgs(argv) + k, argc) == Arguments(argv, [], k)
  {
    if argv == [] {
      assert PrintArgs(argv) + k == k;
    } else {
      var w, argv' := argv[0], argv[1..];
      FirstWord(argv);
      var more := PrintArgs(argv') + k;
      assert PrintArgs(argv) + k == w + (" " + more);
      ArgsRoundTrip(argv', k, argc + 1);
      MoreArgs(argv', k);
      OneArg(w, more, argc);
      assert [w] + argv' == argv;
    }
  }

  lemma ExecRoundTrip(argv: seq<string>, k: string)
    requires Legal(Exec(argv)) && Closing(k)
    ensures ParseLine(PrintArgs(argv) + k) == Ok(Exec(argv), k)
  {
    var r := PrintArgs(argv) + k;
    ArgsStart(argv, k);
    NoRedirs(r);
    ArgsRoundTrip(argv, k, 0);
    assert ParseExec(r) == Ok(Exec(argv), k);
  }

  lemma SkipTwice(r: string)
    ensures SkipSpace(SkipSpace(r)) == SkipSpace(r)
  {
  }

  lemma SkippedExec(r: string)
    ensures ParseExec(SkipSpace(r)) == ParseExec(r)
  {
    SkipTwice(r);
  }

  /** Blanks before a line or a redirection make no difference. */
  lemma SkippedFirst(r: string)
    ensures ParseLine(SkipSpace(r)) == ParseLine(r)
  {
    SkippedExec(r);
    assert ParsePipe(SkipSpace(r)) == ParsePipe(r);
  }

  lemma SkippedRedirs(r: string)
    ensures ParseRedirs(SkipSpace(r)) == ParseRedirs(r)
  {
    SkipTwice(r);
  }

  /** A tail that is skipped to already and does not begin with any of toks. */
  predicate Stops(k: string, toks: string) {
    k == "" || (!Space(k[0]) && k[0] !in toks)
  }

  lemma ExecIsPipe(r: string, c: Cmd, k: string)
    requires ParseExec(r) == Ok(c, k) && Stops(k, "|")
    ensures ParsePipe(r) == Ok(c, k)
  {
  }

  lemma PipeIsLine(r: string, c: Cmd, k: string)
    requires ParsePipe(r) == Ok(c, k) && Stops(k, "&;")
    ensures ParseLine(r) == Ok(c, k)
  {
    assert ParseBacks(c, k) == Ok(c, k);
  }

  lemma RedirParses(op: char, file: string, k: string)
    requires LegalWord(file) && Closing(k) && op in "<>"
    ensures ParseRedirs([op] + (file + k)) == Redirections([RedirectionOf(op, file)], k)
  {
    assert (file + k)[0] == file[0] && WordChar(file[0]);
    SymbolToken(op, file + k);
    WordToken(file, k);
    NoRedirs(k);
  }

  lemma {:induction false} RedirRoundTrip(c: Cmd, k: string)
    requires c.Redir? && Legal(c) && Closing(k)
    ensures ParseLine(Print(c) + k) == Ok(c, k)
    decreases c.cmd, 2
  {
    var op := if c.mode == O_RDONLY then '<' else '>';
    var tail := [op] + (c.file + k);
    assert Print(c) + k == Paren(c.cmd) + tail;
    BlockRoundTrip(c.cmd, tail);
    RedirParses(op, c.file, k);
    assert Wrap(c.cmd, [Redirection(c.file, c.mode, c.fd)]) == c;
    ExecIsPipe(Print(c) + k, c, k);
    PipeIsLine(Print(c) + k, c, k);
  }

  /** An operand in parentheses, before anything but a redirection. */
  lemma {:induction false} OperandRoundTrip(c: Cmd, k: string)
    requires Legal(c) && Stops(k, "<>")
    ensures ParseExec(Paren(c) + k) == Ok(c, k)
    decreases c, 2
  {
    BlockRoundTrip(c, k);
    NoRedirs(k);
  }

  lemma PipeParses(whole: string, l: Cmd, tail: string, r: Cmd, k: string)
    requires ParseExec(whole) == Ok(l, "|" + tail) && tail != "" && tail[0] == '(' && ParsePipe(tail) == Ok(r, k)
    ensures ParsePipe(whole) == Ok(Pipe(l, r), k)
  {
    SymbolToken('|', tail);
  }

  lemma {:induction false} PipeRoundTrip(l: Cmd, r: Cmd, k: string)
    requires Legal(l) && Legal(r) && Closing(k)
    ensures ParseLine(Print(Pipe(l, r)) + k) == Ok(Pipe(l, r), k)
    decreases Pipe(l, r), -1
  {
    var tail := Paren(r) + k;
    var whole := Paren(l) + ("|" + tail);
    assert Print(Pipe(l, r)) + k == whole;
    OperandRoundTrip(l, "|" + tail);
    OperandRoundTrip(r, k);
    ExecIsPipe(tail, r, k);
    PipeParses(whole, l, tail, r, k);
    PipeIsLine(whole, Pipe(l, r), k);
  }

  lemma ListParses(whole: string, l: Cmd, tail: string, r: Cmd, k: string)
    requires ParsePipe(whole) == Ok(l, ";" + tail) && tail != "" && tail[0] == '(' && ParseLine(tail) == Ok(r, k)
    ensures ParseLine(whole) == Ok(List(l, r), k)
  {
    SymbolToken(';', tail);
    assert ParseBacks(l, ";" + tail) == Ok(l, ";" + tail);
  }

  lemma {:induction false} ListRoundTrip(l: Cmd, r: Cmd, k: string)
    requires Legal(l) && Legal(r) && Closing(k)
    ensures ParseLine(Print(List(l, r)) + k) == Ok(List(l, r), k)
    decreases List(l, r), -1
  {
    var tail := Paren(r) + k;
    var whole := Paren(l) + (";" + tail);
    assert Print(List(l, r)) + k == whole;
    OperandRoundTrip(l, ";" + tail);
    ExecIsPipe(whole, l, ";" + tail);
    OperandRoundTrip(r, k);
    ExecIsPipe(tail, r, k);
    PipeIsLine(tail, r, k);
    ListParses(whole, l, tail, r, k);
  }

  lemma BackParses(whole: string, c: Cmd, k: string)
    requires ParsePipe(whole) == Ok(c, "&" + k) && Closing(k)
    ensures ParseLine(whole) == Ok(Back(c), k)
  {
    SymbolToken('&', k);
    assert ParseBacks(Back(c), k) == Ok(Back(c), k);
    assert ParseBacks(c, "&" + k) == Ok(Back(c), k);
  }

  lemma {:induction false} BackRoundTrip(c: Cmd, k: string)
    requires Legal(c) && Closing(k)
    ensures ParseLine(Print(Back(c)) + k) == Ok(Back(c), k)
    decreases Back(c), -1
  {
    var whole := Paren(c) + ("&" + k);
    assert Print(Back(c)) + k == whole;
    OperandRoundTrip(c, "&" + k);
    ExecIsPipe(whole, c, "&" + k);
    BackParses(whole, c, k);
  }

  /** A printed command, followed by nothing or a closing parenthesis, parses back to itself. */
  lemma {:induction false} LineRoundTrip(c: Cmd, k: string)
    requires Legal(c) && Closing(k)
    ensures ParseLine(Print(c) + k) == Ok(c, k)
    decreases c, 0
  {
    match c
    case Exec(argv) => ExecRoundTrip(argv, k);
    case Redir(cmd, file, mode, fd) => RedirRoundTrip(c, k);
    case Pipe(l, r) => PipeRoundTrip(l, r, k);
    case List(l, r) => ListRoundTrip(l, r, k);
    case Back(cmd) => BackRoundTrip(cmd, k);
  }

  /** A block in parentheses, with what redirections the tail holds. */
  lemma {:induction false} BlockRoundTrip(c: Cmd, k: string)
    requires Legal(c)
    ensures var p := ParseRedirs(k);
            ParseExec(Paren(c) + k) == if p.Redirections? then Ok(Wrap(c, p.list), p.rest) else Fail(p.message)
    decreases c, 1
  {
    var inner := Print(c) + (")" + k);
    assert Paren(c) + k == "(" + inner;
    SymbolToken('(', inner);
    LineRoundTrip(c, ")" + k);
    SymbolToken(')', k);
    SkippedFirst(inner);
    SkippedRedirs(k);
  }

  /** Round trip: printing any command and parsing the line gives the command, with nothing left. */
  lemma PrintThenParse(c: Cmd)
    requires Legal(c)
    ensures ParseCmd(Print(c)) == Ok(c, "")
  {
    assert Print(c) + "" == Print(c);
    LineRoundTrip(c, "");
  }

  // ----- what parses is legal -----

  lemma {:induction false} WrapIsLegal(c: Cmd, list: seq<Redirection>)
    requires Legal(c) && LegalRedirections(list)
    ensures Legal(Wrap(c, list))
    decreases |list|
  {
    if list != [] {
      assert list[0] in list && LegalRedirections(list[1..]);
      WrapIsLegal(Redir(c, list[0].file, list[0].mode, list[0].fd), list[1..]);
    }
  }

  lemma {:induction false} RedirsAreLegal(r: string)
    requires ParseRedirs(r).Redirections?
    ensures LegalRedirections(ParseRedirs(r).list)
    decreases |r|
  {
    if Peek(r, "<>") {
      RedirsAreLegal(GetToken(GetToken(SkipSpace(r)).rest).rest);
    }
  }

  lemma LegalJoin(w: string, argv: seq<string>, l: seq<Redirection>, m: seq<Redirection>)
    requires LegalWord(w) && LegalWords(argv) && LegalRedirections(l) && LegalRedirections(m)
    ensures LegalWords([w] + argv) && LegalRedirections(l + m)
  {
  }

  /** ParseArgs on a line that begins with a word. */
  lemma ArgsUnfold(r: string, argc: nat)
    requires argc < MAXARGS && ParseArgs(r, argc).Arguments?
    requires !Peek(r, "|)&;") && GetToken(SkipSpace(r)).kind == 'a'
    ensures var tok := GetToken(SkipSpace(r));
            var list := ParseRedirs(tok.rest);
            && argc + 1 < MAXARGS && list.Redirections? && ParseArgs(list.rest, argc + 1).Arguments?
            && |list.rest| <= |tok.rest| < |r| && LegalWord(tok.text)
            && ParseArgs(r, argc).argv == [tok.text] + ParseArgs(list.rest, argc + 1).argv
            && ParseArgs(r, argc).list == list.list + ParseArgs(list.rest, argc + 1).list
  {
  }

  lemma {:induction false} ArgsAreLegal(r: string, argc: nat)
    requires argc < MAXARGS && ParseArgs(r, argc).Arguments?
    ensures var p := ParseArgs(r, argc); LegalWords(p.argv) && LegalRedirections(p.list)
    decreases |r|
  {
    var tok := GetToken(SkipSpace(r));
    if !Peek(r, "|)&;") && tok.kind == 'a' {
      ArgsUnfold(r, argc);
      var list := ParseRedirs(tok.rest);
      RedirsAreLegal(tok.rest);
      ArgsAreLegal(list.rest, argc + 1);
      var more := ParseArgs(list.rest, argc + 1);
      LegalJoin(tok.text, more.argv, list.list, more.list);
    }
  }

  lemma {:induction false} PipeIsLegal(r: string)
    requires ParsePipe(r).Ok?
    ensures Legal(ParsePipe(r).cmd)
    decreases |r|, 2
  {
    ExecIsLegal(r);
    var p := ParseExec(r);
    if Peek(p.rest, "|") {
      PipeIsLegal(GetToken(p.rest).rest);
    }
  }

  lemma {:induction false} BacksAreLegal(c: Cmd, r: string)
    requires Legal(c)
    ensures Legal(ParseBacks(c, r).cmd)
    decreases |r|
  {
    if Peek(r, "&") {
      BacksAreLegal(Back(c), GetToken(r).rest);
    }
  }

  lemma {:induction false} LineIsLegal(r: string)
    requires ParseLine(r).Ok?
    ensures Legal(ParseLine(r).cmd)
    decreases |r|, 3
  {
    PipeIsLegal(r);
    var p := ParsePipe(r);
    BacksAreLegal(p.cmd, p.rest);
    var b := ParseBacks(p.cmd, p.rest);
    if Peek(b.rest, ";") {
      LineIsLegal(GetToken(b.rest).rest);
    }
  }

  lemma {:induction false} BlockIsLegal(r: string)
    requires Peek(r, "(") && ParseBlock(r).Ok?
    ensures Legal(ParseBlock(r).cmd)
    decreases |r|, 0
  {
    LineIsLegal(GetToken(r).rest);
    var p := ParseLine(GetToken(r).rest);
    RedirsAreLegal(GetToken(p.rest).rest);
    WrapIsLegal(p.cmd, ParseRedirs(GetToken(p.rest).rest).list);
  }

  lemma {:induction false} ExecIsLegal(r: string)
    requires ParseExec(r).Ok?
    ensures Legal(ParseExec(r).cmd)
    decreases |r|, 1
  {
    var s := SkipSpace(r);
    if Peek(r, "(") {
      BlockIsLegal(s);
    } else {
      var p := ParseRedirs(s);
      var q := ParseArgs(p.rest, 0);
      RedirsAreLegal(s);
      ArgsAreLegal(p.rest, 0);
      WrapIsLegal(Exec(q.argv), p.list + q.list);
    }
  }

  /** A command is legal exactly when some line says it, and its printed form is such a line. */
  lemma LegalIffParsed(c: Cmd)
    ensures Legal(c) <==> exists line: string :: ParseCmd(line) == Ok(c, "")
  {
    if Legal(c) {
      PrintThenParse(c);
    }
    if line: string :| ParseCmd(line) == Ok(c, "") {
      LineIsLegal(line);
    }
  }

  /** Any line that parses means the same as its command printed. */
  lemma ParseThenPrint(line: string)
    requires ParseCmd(line).Ok?
    ensures ParseCmd(Print(ParseCmd(line).cmd)) == ParseCmd(line)
  {
    LineIsLegal(line);
    PrintThenParse(ParseCmd(line).cmd);
  }
}
