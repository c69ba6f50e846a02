/** The lines that the shell accepts, as a grammar over tokens that knows nothing of the parser, and the
    command that each line means. */
module ShellLines {
  import opened ShellGrammar

  // ----- tokens of a line -----

  /** A word, or a symbol; >> is the symbol '+'. */
  datatype Lexeme = Word(text: string) | Op(c: char)

  function Lex(r: string): seq<Lexeme>
    decreases |r|
  {
    var t := GetToken(r);
    if t.kind == '\0' then [] else [if t.kind == 'a' then Word(t.text) else Op(t.kind)] + Lex(t.rest)
  }

  /** Blanks before a token make no difference. */
  lemma LexBlank(c: char, r: string)
    requires Space(c)
    ensures Lex([c] + r) == Lex(r)
  {
    assert ([c] + r)[1..] == r;
    SkipTwice(r);
  }

  lemma LexSkip(r: string)
    ensures Lex(SkipSpace(r)) == Lex(r)
  {
    SkipTwice(r);
  }

  /** A word ends at a blank, a symbol, or the end of the line. */
  lemma LexWord(w: string, k: string)
    requires LegalWord(w) && (k == "" || !WordChar(k[0]))
    ensures Lex(w + k) == [Word(w)] + Lex(k)
  {
    WordToken(w, k);
    LexSkip(k);
  }

  lemma LexSymbol(c: char, k: string)
    requires Symbol(c) && (c == '>' ==> k == "" || k[0] != '>')
    ensures Lex([c] + k) == [Op(c)] + Lex(k)
  {
    SymbolToken(c, k);
    LexSkip(k);
  }

  lemma LexAppend(k: string)
    ensures Lex(">>" + k) == [Op('+')] + Lex(k)
  {
    assert (">>" + k)[2..] == k;
    LexSkip(k);
  }

  /** The first token, and what peek says of it. */
  lemma FirstLexeme(r: string)
    ensures Lex(r) == [] <==> GetToken(r).kind == '\0'
    ensures Lex(r) != [] ==>
              var t := GetToken(r);
              && Lex(r)[1..] == Lex(t.rest) && Lex(r)[0] == (if t.kind == 'a' then Word(t.text) else Op(t.kind))
              && (t.kind != 'a' ==> t.kind in "<|>&;()+")
    ensures forall toks: string :: (forall c :: c in toks ==> c in "|&;()") ==>
              (Peek(r, toks) <==> Lex(r) != [] && Lex(r)[0].Op? && Lex(r)[0].c in toks)
    ensures Peek(r, "<>") <==> Lex(r) != [] && Lex(r)[0].Op? && Lex(r)[0].c in "<>+"
  {
    SkipTwice(r);
  }

  lemma {:induction false} SkipNulFree(r: string)
    requires '\0' !in r
    ensures '\0' !in SkipSpace(r)
  {
    if r != "" && Space(r[0]) {
      SkipNulFree(r[1..]);
    }
  }

  lemma NulFree(r: string)
    requires '\0' !in r
    ensures '\0' !in SkipSpace(r) && '\0' !in GetToken(r).rest && (Lex(r) == [] ==> SkipSpace(r) == "")
  {
    SkipNulFree(r);
    var s := SkipSpace(r);
    if s != "" {
      assert s[0] in s;
      SkipNulFree(s[1..]);
      if |s| > 1 {
        SkipNulFree(s[2..]);
      }
      SkipNulFree(s[WordLength(s)..]);
    }
  }

  // ----- the grammar -----

  /** A word of a command, or a redirection: <, > or >> ('+') and a file. */
  datatype Piece = Arg(w: string) | To(op: char, file: string)

  /** A command with its words and redirections in any order, or a block with redirections behind it. */
  datatype Unit = Simple(pieces: seq<Piece>) | Block(body: Line, redirs: seq<Piece>)

  datatype Pipes = Last(unit: Unit) | Bar(unit: Unit, rest: Pipes)

  /** Pipelines separated by ; and each followed by any number of &. */
  datatype Line = End(pipes: Pipes, amps: nat) | Semi(pipes: Pipes, amps: nat, rest: Line)

  function WordsOf(ps: seq<Piece>): seq<string> {
    if ps == [] then [] else (if ps[0].Arg? then [ps[0].w] else []) + WordsOf(ps[1..])
  }

  predicate Redirects(ps: seq<Piece>) {
    forall p :: p in ps ==> p.To? && p.op in "<>+"
  }

  predicate Grammatical(ps: seq<Piece>) {
    |WordsOf(ps)| < MAXARGS && forall p :: p in ps ==> p.To? ==> p.op in "<>+"
  }

  predicate GoodUnit(u: Unit) {
    match u
    case Simple(ps) => Grammatical(ps)
    case Block(body, rs) => GoodLine(body) && Redirects(rs)
  }

  predicate GoodPipes(p: Pipes) {
    GoodUnit(p.unit) && (p.Bar? ==> GoodPipes(p.rest))
  }

  predicate GoodLine(l: Line) {
    GoodPipes(l.pipes) && (l.Semi? ==> GoodLine(l.rest))
  }

  // ----- how a line is written -----

  function PieceTokens(ps: seq<Piece>): seq<Lexeme> {
    if ps == [] then [] else
      (match ps[0] case Arg(w) => [Word(w)] case To(op, file) => [Op(op), Word(file)]) + PieceTokens(ps[1..])
  }

  function UnitTokens(u: Unit): seq<Lexeme> {
    match u
    case Simple(ps) => PieceTokens(ps)
    case Block(body, rs) => [Op('(')] + LineTokens(body) + [Op(')')] + PieceTokens(rs)
  }

  function PipesTokens(p: Pipes): seq<Lexeme> {
    match p
    case Last(u) => UnitTokens(u)
    case Bar(u, rest) => UnitTokens(u) + [Op('|')] + PipesTokens(rest)
  }

  function Amps(n: nat): seq<Lexeme> {
    if n == 0 then [] else [Op('&')] + Amps(n - 1)
  }

  function LineTokens(l: Line): seq<Lexeme> {
    match l
    case End(p, n) => PipesTokens(p) + Amps(n)
    case Semi(p, n, rest) => PipesTokens(p) + Amps(n) + [Op(';')] + LineTokens(rest)
  }

  // ----- what a line means -----

  /** c inside the redirections among ps, the last of them outermost. */
  function Inside(c: Cmd, ps: seq<Piece>): Cmd
    decreases |ps|
  {
    if ps == [] then c
    else
      var last, inner := ps[|ps| - 1], Inside(c, ps[..|ps| - 1]);
      if last.Arg? then inner
      else if last.op == '<' then Redir(inner, last.file, O_RDONLY, 0)
      else Redir(inner, last.file, O_WRONLY_CREATE, 1)
  }

  function UnitMeans(u: Unit): Cmd {
    match u
    case Simple(ps) => Inside(Exec(WordsOf(ps)), ps)
    case Block(body, rs) => Inside(LineMeans(body), rs)
  }

  /** | binds tightest and groups to the right. */
  function PipesMean(p: Pipes): Cmd {
    match p
    case Last(u) => UnitMeans(u)
    case Bar(u, rest) => Pipe(UnitMeans(u), PipesMean(rest))
  }

  function Backs(c: Cmd, n: nat): Cmd
    decreases n
  {
    if n == 0 then c else Backs(Back(c), n - 1)
  }

  /** & takes the pipeline before it; ; groups to the right. */
  function LineMeans(l: Line): Cmd {
    match l
    case End(p, n) => Backs(PipesMean(p), n)
    case Semi(p, n, rest) => List(Backs(PipesMean(p), n), LineMeans(rest))
  }

  // ----- the parser reads what is written -----

  /** What can follow a command, a pipeline, and a whole line. */
  predicate Follows(k: seq<Lexeme>, ops: string) {
    k == [] || (k[0].Op? && k[0].c in ops)
  }

  /** The redirections of ps, as ParseRedirs lists them. */
  function RedirsOf(ps: seq<Piece>): seq<Redirection> {
    if ps == [] then []
    else (if ps[0].To? then [RedirectionOf(ps[0].op, ps[0].file)] else []) + RedirsOf(ps[1..])
  }

  lemma {:induction false} InsideIsWrap(c: Cmd, d: Piece, ps: seq<Piece>)
    ensures Inside(c, [d] + ps) == Inside(Inside(c, [d]), ps)
    decreases |ps|
  {
    if ps == [] {
      assert [d] + ps == [d];
    } else {
      var n := |ps| - 1;
      assert ([d] + ps)[..n + 1] == [d] + ps[..n] && ([d] + ps)[n + 1] == ps[n];
      InsideIsWrap(c, d, ps[..n]);
    }
  }

  lemma {:induction false} InsideWraps(c: Cmd, ps: seq<Piece>)
    ensures Inside(c, ps) == Wrap(c, RedirsOf(ps))
    decreases |ps|
  {
    if ps != [] {
      var d, rest := ps[0], ps[1..];
      assert ps == [d] + rest && [d][..0] == [];
      InsideIsWrap(c, d, rest);
      InsideWraps(Inside(c, [d]), rest);
      assert Inside(c, [d][..0]) == c;
      if d.To? {
        var x := RedirectionOf(d.op, d.file);
        assert Inside(c, [d]) == Redir(c, x.file, x.mode, x.fd);
        assert RedirsOf(ps)[0] == x && RedirsOf(ps)[1..] == RedirsOf(rest);
      } else {
        assert Inside(c, [d]) == c && RedirsOf(ps) == RedirsOf(rest);
      }
    }
  }

  /** One redirection. */
  lemma RedirRead(r: string, d: Piece, more: seq<Lexeme>)
    requires d.To? && d.op in "<>+" && Lex(r) == [Op(d.op), Word(d.file)] + more
    ensures Peek(r, "<>")
    ensures var tok := GetToken(SkipSpace(r)); var file := GetToken(tok.rest);
            && file.kind == 'a' && RedirectionOf(tok.kind, file.text) == RedirectionOf(d.op, d.file)
            && Lex(file.rest) == more && |file.rest| < |r| && ('\0' !in r ==> '\0' !in file.rest)
  {
    FirstLexeme(r);
    SkipTwice(r);
    var tok := GetToken(r);
    FirstLexeme(tok.rest);
    assert Lex(r)[1..] == [Word(d.file)] + more;
    assert Lex(tok.rest)[1..] == more;
    if '\0' !in r {
      NulFree(r);
      NulFree(tok.rest);
    }
  }

  /** Redirections, up to a token that is none. */
  lemma {:induction false} RedirsRead(r: string, ps: seq<Piece>, k: seq<Lexeme>)
    requires Lex(r) == PieceTokens(ps) + k && Redirects(ps) && (k != [] && k[0].Op? ==> k[0].c !in "<>+")
    ensures var p := ParseRedirs(r);
            p.Redirections? && p.list == RedirsOf(ps) && Lex(p.rest) == k && ('\0' !in r ==> '\0' !in p.rest)
    decreases |ps|
  {
    if ps == [] {
      assert PieceTokens(ps) + k == k;
      FirstLexeme(r);
      LexSkip(r);
      if '\0' !in r {
        NulFree(r);
      }
    } else {
      var d, more := ps[0], PieceTokens(ps[1..]) + k;
      assert d in ps && PieceTokens(ps) + k == [Op(d.op), Word(d.file)] + more;
      RedirRead(r, d, more);
      var tok := GetToken(SkipSpace(r));
      RedirsRead(GetToken(tok.rest).rest, ps[1..], k);
    }
  }

  /** The parse of r gave c and left the tokens k. */
  ghost predicate Reads(r: string, p: Parsed, c: Cmd, k: seq<Lexeme>) {
    p.Ok? && p.cmd == c && Lex(p.rest) == k && ('\0' !in r ==> '\0' !in p.rest)
  }

  /** How many redirections ps begins with. */
  function Leading(ps: seq<Piece>): (n: nat)
    ensures n <= |ps| && (forall i :: 0 <= i < n ==> ps[i].To?) && (n < |ps| ==> ps[n].Arg?)
  {
    if ps == [] || ps[0].Arg? then 0 else 1 + Leading(ps[1..])
  }

  lemma {:induction false} TokensJoin(a: seq<Piece>, b: seq<Piece>)
    ensures PieceTokens(a + b) == PieceTokens(a) + PieceTokens(b)
  {
    if a == [] {
      assert a + b == b;
    } else {
      assert (a + b)[1..] == a[1..] + b;
      TokensJoin(a[1..], b);
    }
  }

  lemma {:induction false} WordsJoin(a: seq<Piece>, b: seq<Piece>)
    ensures WordsOf(a + b) == WordsOf(a) + WordsOf(b)
  {
    if a == [] {
      assert a + b == b;
    } else {
      assert (a + b)[1..] == a[1..] + b;
      WordsJoin(a[1..], b);
    }
  }

  lemma {:induction false} RedirsJoin(a: seq<Piece>, b: seq<Piece>)
    ensures RedirsOf(a + b) == RedirsOf(a) + RedirsOf(b)
  {
    if a == [] {
      assert a + b == b;
    } else {
      assert (a + b)[0] == a[0] && (a + b)[1..] == a[1..] + b;
      RedirsJoin(a[1..], b);
    }
  }

  lemma PiecesJoin(a: seq<Piece>, b: seq<Piece>)
    ensures PieceTokens(a + b) == PieceTokens(a) + PieceTokens(b)
    ensures WordsOf(a + b) == WordsOf(a) + WordsOf(b) && RedirsOf(a + b) == RedirsOf(a) + RedirsOf(b)
  {
    TokensJoin(a, b);
    WordsJoin(a, b);
    RedirsJoin(a, b);
  }

  lemma {:induction false} NoWords(rs: seq<Piece>)
    requires forall p :: p in rs ==> p.To?
    ensures WordsOf(rs) == []
  {
    if rs != [] {
      assert rs[0] in rs;
      NoWords(rs[1..]);
    }
  }

  lemma Regroup<T>(a: seq<T>, b: seq<T>, k: seq<T>)
    ensures a + b + k == a + (b + k)
  {
  }

  /** A word first: the redirections right behind it, and the pieces from the next word on. */
  lemma SplitPieces(ps: seq<Piece>)
    requires ps != [] && ps[0].Arg? && forall p :: p in ps ==> p.To? ==> p.op in "<>+"
    ensures var n := Leading(ps[1..]); var rs, qs := ps[1..][..n], ps[1..][n..];
            && PieceTokens(ps) == [Word(ps[0].w)] + PieceTokens(rs) + PieceTokens(qs) && Redirects(rs)
            && WordsOf(ps) == [ps[0].w] + WordsOf(qs) && RedirsOf(ps) == RedirsOf(rs) + RedirsOf(qs)
            && (qs == [] || qs[0].Arg?) && forall p :: p in qs ==> p.To? ==> p.op in "<>+"
  {
    var n := Leading(ps[1..]);
    var rs, qs := ps[1..][..n], ps[1..][n..];
    var rest := ps[1..];
    assert rest == rs + qs;
    PiecesJoin(rs, qs);
    NoWords(rs);
    assert WordsOf(rest) == WordsOf(qs);
    assert forall p :: p in rs || p in qs ==> p in ps;
    Regroup([Word(ps[0].w)], PieceTokens(rs), PieceTokens(qs));
    assert PieceTokens(ps) == [Word(ps[0].w)] + PieceTokens(rest);
  }

  lemma NextIsNoRedir(qs: seq<Piece>, k: seq<Lexeme>)
    requires (qs == [] || qs[0].Arg?) && Follows(k, "|)&;")
    ensures var more := PieceTokens(qs) + k; more != [] && more[0].Op? ==> more[0].c !in "<>+"
  {
    if qs == [] {
      assert PieceTokens(qs) + k == k;
    } else {
      assert (PieceTokens(qs) + k)[0] == PieceTokens(qs)[0] == Word(qs[0].w);
    }
  }

  /** parseexec's loop at the end of the words. */
  lemma ArgsStop(r: string, k: seq<Lexeme>, argc: nat)
    requires Lex(r) == k && argc < MAXARGS && Follows(k, "|)&;")
    ensures var p := ParseArgs(r, argc);
            p.Arguments? && p.argv == [] && p.list == [] && Lex(p.rest) == k && ('\0' !in r ==> '\0' !in p.rest)
  {
    FirstLexeme(r);
    LexSkip(r);
    SkipTwice(r);
    if '\0' !in r {
      NulFree(r);
    }
    LexSkip(GetToken(r).rest);
  }

  /** parseexec's loop at a word. */
  lemma ArgsNext(r: string, w: string, more: seq<Lexeme>, argc: nat)
    requires Lex(r) == [Word(w)] + more && argc + 1 < MAXARGS
    ensures var tail := GetToken(SkipSpace(r)).rest;
            && Lex(tail) == more && |tail| < |r| && ('\0' !in r ==> '\0' !in tail)
            && ParseArgs(r, argc) ==
               match ParseRedirs(tail)
               case BadRedirection(m) => BadArguments(m)
               case Redirections(l, rest) =>
                 match ParseArgs(rest, argc + 1)
                 case BadArguments(m) => BadArguments(m)
                 case Arguments(a, l', rest') => Arguments([w] + a, l + l', rest')
  {
    FirstLexeme(r);
    SkipTwice(r);
    assert Lex(r)[1..] == more;
    if '\0' !in r {
      NulFree(r);
    }
  }

  /** parseexec's loop at a word: that word and the redirections right behind it. */
  lemma GroupRead(r: string, ps: seq<Piece>, qs: seq<Piece>, k: seq<Lexeme>, argc: nat) returns (rest: string)
    requires Lex(r) == PieceTokens(ps) + k && Follows(k, "|)&;") && argc + 1 < MAXARGS
    requires ps != [] && ps[0].Arg? && (forall p :: p in ps ==> p.To? ==> p.op in "<>+")
             && qs == ps[1..][Leading(ps[1..])..]
    ensures Lex(rest) == PieceTokens(qs) + k && |rest| < |r| && ('\0' !in r ==> '\0' !in rest)
    ensures var p, more := ParseArgs(r, argc), ParseArgs(rest, argc + 1);
            more.Arguments? ==>
              && p.Arguments? && p.argv == [ps[0].w] + more.argv && p.rest == more.rest
              && p.list == RedirsOf(ps[1..][..Leading(ps[1..])]) + more.list
  {
    SplitPieces(ps);
    var rs, w, more := ps[1..][..Leading(ps[1..])], [Word(ps[0].w)], PieceTokens(qs) + k;
    Regroup(w + PieceTokens(rs), PieceTokens(qs), k);
    Regroup(w, PieceTokens(rs), more);
    ArgsNext(r, ps[0].w, PieceTokens(rs) + more, argc);
    var tail := GetToken(SkipSpace(r)).rest;
    NextIsNoRedir(qs, k);
    RedirsRead(tail, rs, more);
    rest := ParseRedirs(tail).rest;
  }

  /** parseexec's loop reads the pieces ps and leaves the tokens k. */
  ghost predicate ArgsAre(r: string, argc: nat, ps: seq<Piece>, k: seq<Lexeme>) {
    argc < MAXARGS &&
    var p := ParseArgs(r, argc);
    && p.Arguments? && p.argv == WordsOf(ps) && p.list == RedirsOf(ps)
    && Lex(p.rest) == k && ('\0' !in r ==> '\0' !in p.rest)
  }

  /** Pieces that begin with a word, if there are any, and whose redirections are proper. */
  predicate Words(ps: seq<Piece>) {
    (ps == [] || ps[0].Arg?) && forall p :: p in ps ==> p.To? ==> p.op in "<>+"
  }

  lemma GroupThenRest(r: string, ps: seq<Piece>, k: seq<Lexeme>, argc: nat) returns (rest: string, qs: seq<Piece>)
    requires Lex(r) == PieceTokens(ps) + k && Follows(k, "|)&;") && ps != [] && Words(ps)
    requires argc + |WordsOf(ps)| < MAXARGS
    ensures Words(qs) && |qs| < |ps| && argc + 1 + |WordsOf(qs)| < MAXARGS && Lex(rest) == PieceTokens(qs) + k
    ensures ArgsAre(rest, argc + 1, qs, k) ==> ArgsAre(r, argc, ps, k)
  {
    SplitPieces(ps);
    qs := ps[1..][Leading(ps[1..])..];
    rest := GroupRead(r, ps, qs, k, argc);
  }

  lemma NoArgs(r: string, ps: seq<Piece>, k: seq<Lexeme>, argc: nat)
    requires Lex(r) == PieceTokens(ps) + k && Follows(k, "|)&;") && argc < MAXARGS && ps == []
    ensures ArgsAre(r, argc, ps, k)
  {
    assert PieceTokens(ps) + k == k;
    ArgsStop(r, k, argc);
  }

  lemma {:induction false} ArgsRead(r: string, ps: seq<Piece>, k: seq<Lexeme>, argc: nat)
    requires Lex(r) == PieceTokens(ps) + k && Follows(k, "|)&;") && argc + |WordsOf(ps)| < MAXARGS && Words(ps)
    ensures ArgsAre(r, argc, ps, k)
    decreases |ps|
  {
    if ps == [] {
      NoArgs(r, ps, k, argc);
    } else {
      var rest, qs := GroupThenRest(r, ps, k, argc);
      ArgsRead(rest, qs, k, argc + 1);
    }
  }

  lemma NotABlock(r: string, ps: seq<Piece>, k: seq<Lexeme>)
    requires Lex(r) == PieceTokens(ps) + k && Follows(k, "|)&;") && Grammatical(ps)
    ensures !Peek(r, "(")
  {
    FirstLexeme(r);
    if ps == [] {
      assert PieceTokens(ps) + k == k;
    } else {
      assert ps[0] in ps && (PieceTokens(ps) + k)[0] == PieceTokens(ps)[0];
    }
  }

  /** A command's words and redirections, in any order. */
  lemma SimpleRead(r: string, ps: seq<Piece>, k: seq<Lexeme>)
    requires Lex(r) == PieceTokens(ps) + k && Follows(k, "|)&;") && Grammatical(ps)
    ensures Reads(r, ParseExec(r), UnitMeans(Simple(ps)), k)
  {
    var n := Leading(ps);
    var rs, qs := ps[..n], ps[n..];
    assert ps == rs + qs;
    PiecesJoin(rs, qs);
    NoWords(rs);
    InsideWraps(Exec(WordsOf(ps)), ps);
    FirstLexeme(r);
    LexSkip(r);
    if '\0' !in r {
      NulFree(r);
    }
    var s := SkipSpace(r);
    var more := PieceTokens(qs) + k;
    Regroup(PieceTokens(rs), PieceTokens(qs), k);
    NextIsNoRedir(qs, k);
    RedirsRead(s, rs, more);
    var list := ParseRedirs(s);
    ArgsRead(list.rest, qs, k, 0);
    var args := ParseArgs(list.rest, 0);
    NotABlock(r, ps, k);
    assert args.argv == WordsOf(ps) && list.list + args.list == RedirsOf(ps);
    assert ParseExec(r) == Ok(Wrap(Exec(args.argv), list.list + args.list), args.rest);
  }

  /** A symbol that is no redirection. */
  lemma OpRead(r: string, c: char, more: seq<Lexeme>)
    requires Lex(r) == [Op(c)] + more && c in "|&;()"
    ensures Peek(r, [c]) && GetToken(SkipSpace(r)) == GetToken(r)
    ensures var rest := GetToken(r).rest; Lex(rest) == more && |rest| < |r| && ('\0' !in r ==> '\0' !in rest)
  {
    FirstLexeme(r);
    SkipTwice(r);
    assert Lex(r)[1..] == more;
    if '\0' !in r {
      NulFree(r);
    }
  }

  /** No symbol of toks comes next. */
  lemma OtherNext(r: string, ops: string, toks: string)
    requires Follows(Lex(r), ops) && (forall c :: c in toks ==> c in "|&;()" && c !in ops)
    ensures !Peek(r, toks)
  {
    FirstLexeme(r);
  }

  lemma SkipReads(r: string, k: seq<Lexeme>)
    requires Lex(r) == k
    ensures Lex(SkipSpace(r)) == k && ('\0' !in r ==> '\0' !in SkipSpace(r))
  {
    LexSkip(r);
    if '\0' !in r {
      NulFree(r);
    }
  }

  lemma BackRead(c: Cmd, r: string, n: nat, k: seq<Lexeme>)
    requires Lex(r) == Amps(n) + k && n > 0
    ensures var tail := GetToken(r).rest;
            && ParseBacks(c, r) == ParseBacks(Back(c), tail) && Lex(tail) == Amps(n - 1) + k
            && ('\0' !in r ==> '\0' !in tail)
  {
    assert Amps(n) + k == [Op('&')] + (Amps(n - 1) + k);
    OpRead(r, '&', Amps(n - 1) + k);
  }

  lemma {:induction false} BacksRead(c: Cmd, r: string, n: nat, k: seq<Lexeme>)
    requires Lex(r) == Amps(n) + k && Follows(k, ";)")
    ensures Reads(r, ParseBacks(c, r), Backs(c, n), k)
    decreases n
  {
    if n == 0 {
      assert Amps(n) + k == k;
      OtherNext(r, ";)", "&");
      SkipReads(r, k);
    } else {
      BackRead(c, r, n, k);
      BacksRead(Back(c), GetToken(r).rest, n - 1, k);
    }
  }

  lemma BlockTokens(body: seq<Lexeme>, rs: seq<Lexeme>, k: seq<Lexeme>)
    ensures [Op('(')] + body + [Op(')')] + rs + k == [Op('(')] + (body + ([Op(')')] + (rs + k)))
  {
  }

  /** parseblock behind its body. */
  lemma BlockCloses(r: string, c: Cmd, rs: seq<Piece>, k: seq<Lexeme>)
    requires Peek(r, "(") && Follows(k, "|)&;") && Redirects(rs)
    requires var inner := GetToken(SkipSpace(r)).rest;
             Reads(inner, ParseLine(inner), c, [Op(')')] + (PieceTokens(rs) + k)) && ('\0' !in r ==> '\0' !in inner)
    ensures Reads(r, ParseExec(r), Inside(c, rs), k)
  {
    var rest := ParseLine(GetToken(SkipSpace(r)).rest).rest;
    OpRead(rest, ')', PieceTokens(rs) + k);
    var tail := GetToken(rest).rest;
    RedirsRead(tail, rs, k);
    InsideWraps(c, rs);
    SkipTwice(r);
    assert ParseExec(r) == Ok(Wrap(c, ParseRedirs(tail).list), ParseRedirs(tail).rest);
  }

  /** A block, once its body has been read. */
  lemma BlockReads(r: string, body: Line, rs: seq<Piece>, k: seq<Lexeme>)
    requires Lex(r) == UnitTokens(Block(body, rs)) + k && Follows(k, "|)&;") && Redirects(rs)
    ensures Peek(r, "(") && |GetToken(r).rest| < |r|
    ensures var inner, more := GetToken(r).rest, [Op(')')] + (PieceTokens(rs) + k);
            && Lex(inner) == LineTokens(body) + more
            && (Reads(inner, ParseLine(inner), LineMeans(body), more) ==>
                Reads(r, ParseExec(r), UnitMeans(Block(body, rs)), k))
  {
    var more := [Op(')')] + (PieceTokens(rs) + k);
    BlockTokens(LineTokens(body), PieceTokens(rs), k);
    OpRead(r, '(', LineTokens(body) + more);
    var inner := GetToken(r).rest;
    if Reads(inner, ParseLine(inner), LineMeans(body), more) {
      BlockCloses(r, LineMeans(body), rs, k);
    }
  }

  lemma {:induction false} UnitRead(r: string, u: Unit, k: seq<Lexeme>)
    requires GoodUnit(u) && Lex(r) == UnitTokens(u) + k && Follows(k, "|)&;")
    ensures Reads(r, ParseExec(r), UnitMeans(u), k)
    decreases u
  {
    match u
    case Simple(ps) => SimpleRead(r, ps, k);
    case Block(body, rs) =>
      BlockReads(r, body, rs, k);
      LineRead(GetToken(r).rest, body, [Op(')')] + (PieceTokens(rs) + k));
  }

  lemma BarReads(r: string, u: Unit, rest: Pipes, k: seq<Lexeme>)
    requires Reads(r, ParseExec(r), UnitMeans(u), [Op('|')] + (PipesTokens(rest) + k))
    ensures var tail := GetToken(ParseExec(r).rest).rest;
            && Lex(tail) == PipesTokens(rest) + k
            && (Reads(tail, ParsePipe(tail), PipesMean(rest), k) ==> Reads(r, ParsePipe(r), PipesMean(Bar(u, rest)), k))
  {
    OpRead(ParseExec(r).rest, '|', PipesTokens(rest) + k);
  }

  lemma {:induction false} PipesRead(r: string, p: Pipes, k: seq<Lexeme>)
    requires GoodPipes(p) && Lex(r) == PipesTokens(p) + k && Follows(k, ")&;")
    ensures Reads(r, ParsePipe(r), PipesMean(p), k)
    decreases p
  {
    match p
    case Last(u) =>
      UnitRead(r, u, k);
      OtherNext(ParseExec(r).rest, ")&;", "|");
      SkipReads(ParseExec(r).rest, k);
    case Bar(u, rest) =>
      Regroup(UnitTokens(u) + [Op('|')], PipesTokens(rest), k);
      Regroup(UnitTokens(u), [Op('|')], PipesTokens(rest) + k);
      UnitRead(r, u, [Op('|')] + (PipesTokens(rest) + k));
      BarReads(r, u, rest, k);
      PipesRead(GetToken(ParseExec(r).rest).rest, rest, k);
  }

  lemma EndReads(r: string, p: Pipes, n: nat, k: seq<Lexeme>)
    requires Reads(r, ParsePipe(r), PipesMean(p), Amps(n) + k) && Follows(k, ")")
    ensures Reads(r, ParseLine(r), LineMeans(End(p, n)), k)
  {
    var c, rest := ParsePipe(r).cmd, ParsePipe(r).rest;
    BacksRead(c, rest, n, k);
    OtherNext(ParseBacks(c, rest).rest, ")", ";");
    SkipReads(ParseBacks(c, rest).rest, k);
  }

  lemma SemiReads(r: string, p: Pipes, n: nat, l: Line, k: seq<Lexeme>)
    requires Reads(r, ParsePipe(r), PipesMean(p), Amps(n) + ([Op(';')] + (LineTokens(l) + k)))
    ensures var tail := GetToken(ParseBacks(ParsePipe(r).cmd, ParsePipe(r).rest).rest).rest;
            && Lex(tail) == LineTokens(l) + k
            && (Reads(tail, ParseLine(tail), LineMeans(l), k) ==> Reads(r, ParseLine(r), LineMeans(Semi(p, n, l)), k))
  {
    var c, rest := ParsePipe(r).cmd, ParsePipe(r).rest;
    BacksRead(c, rest, n, [Op(';')] + (LineTokens(l) + k));
    OpRead(ParseBacks(c, rest).rest, ';', LineTokens(l) + k);
  }

  lemma AmpsFollow(n: nat, k: seq<Lexeme>)
    requires Follows(k, ");")
    ensures Follows(Amps(n) + k, ")&;")
  {
    if n == 0 {
      assert Amps(n) + k == k;
    } else {
      assert (Amps(n) + k)[0] == Op('&');
    }
  }

  lemma SemiTokens(p: seq<Lexeme>, a: seq<Lexeme>, l: seq<Lexeme>, k: seq<Lexeme>)
    ensures p + a + [Op(';')] + l + k == p + (a + ([Op(';')] + (l + k)))
  {
  }

  lemma {:induction false} LineRead(r: string, l: Line, k: seq<Lexeme>)
    requires GoodLine(l) && Lex(r) == LineTokens(l) + k && Follows(k, ")")
    ensures Reads(r, ParseLine(r), LineMeans(l), k)
    decreases l
  {
    match l
    case End(p, n) =>
      Regroup(PipesTokens(p), Amps(n), k);
      AmpsFollow(n, k);
      PipesRead(r, p, Amps(n) + k);
      EndReads(r, p, n, k);
    case Semi(p, n, rest) =>
      var more := [Op(';')] + (LineTokens(rest) + k);
      SemiTokens(PipesTokens(p), Amps(n), LineTokens(rest), k);
      AmpsFollow(n, more);
      PipesRead(r, p, Amps(n) + more);
      SemiReads(r, p, n, rest, k);
      LineRead(GetToken(ParseBacks(ParsePipe(r).cmd, ParsePipe(r).rest).rest).rest, rest, k);
  }

  /** A line that is written as the grammar says parses to what it means, however it is spaced. */
  lemma LinesParse(line: string, l: Line)
    requires '\0' !in line && GoodLine(l) && Lex(line) == LineTokens(l)
    ensures ParseCmd(line) == Ok(LineMeans(l), "")
  {
    assert LineTokens(l) + [] == LineTokens(l);
    LineRead(line, l, []);
    NulFree(ParseLine(line).rest);
  }

  // ----- what the parser reads is so written -----

  lemma LexPeek(r: string, c: char)
    requires Peek(r, [c]) && c in "|&;()"
    ensures GetToken(SkipSpace(r)) == GetToken(r) && Lex(r) == [Op(c)] + Lex(GetToken(r).rest)
  {
    FirstLexeme(r);
    SkipTwice(r);
    assert Lex(r) == [Lex(r)[0]] + Lex(r)[1..];
  }

  lemma RedirTokens(r: string)
    requires Peek(r, "<>") && ParseRedirs(r).Redirections?
    ensures var tok := GetToken(SkipSpace(r)); var file := GetToken(tok.rest);
            && tok.kind in "<>+" && file.kind == 'a' && |file.rest| < |r|
            && Lex(r) == [Op(tok.kind)] + Lex(tok.rest) && Lex(tok.rest) == [Word(file.text)] + Lex(file.rest)
  {
    FirstLexeme(r);
    SkipTwice(r);
    var tok := GetToken(SkipSpace(r));
    FirstLexeme(tok.rest);
    assert Lex(r) == [Lex(r)[0]] + Lex(r)[1..] && Lex(tok.rest) == [Lex(tok.rest)[0]] + Lex(tok.rest)[1..];
  }

  lemma RedirStep(r: string) returns (d: Piece, rest: string)
    requires Peek(r, "<>") && ParseRedirs(r).Redirections?
    ensures d.To? && d.op in "<>+" && |rest| < |r| && Lex(r) == [Op(d.op), Word(d.file)] + Lex(rest)
    ensures var p := ParseRedirs(rest);
            p.Redirections? && ParseRedirs(r) == Redirections([RedirectionOf(d.op, d.file)] + p.list, p.rest)
  {
    RedirTokens(r);
    var tok := GetToken(SkipSpace(r));
    var file := GetToken(tok.rest);
    d, rest := To(tok.kind, file.text), file.rest;
    assert [Op(d.op)] + ([Word(d.file)] + Lex(rest)) == [Op(d.op), Word(d.file)] + Lex(rest);
  }

  /** ps is what ParseRedirs has read from r. */
  ghost predicate RedirsWritten(r: string, ps: seq<Piece>) {
    var p := ParseRedirs(r);
    p.Redirections? && Redirects(ps) && RedirsOf(ps) == p.list && Lex(r) == PieceTokens(ps) + Lex(p.rest)
  }

  lemma {:induction false} RedirsTree(r: string) returns (ps: seq<Piece>)
    requires ParseRedirs(r).Redirections?
    ensures RedirsWritten(r, ps)
    decreases |r|
  {
    if !Peek(r, "<>") {
      ps := [];
      LexSkip(r);
    } else {
      var d, rest := RedirStep(r);
      var tail := RedirsTree(rest);
      ps := [d] + tail;
      Regroup([Op(d.op), Word(d.file)], PieceTokens(tail), Lex(ParseRedirs(rest).rest));
    }
  }

  lemma ArgsUnfolds(r: string, argc: nat)
    requires argc < MAXARGS && ParseArgs(r, argc).Arguments?
    requires !Peek(r, "|)&;") && GetToken(SkipSpace(r)).kind == 'a'
    ensures var tok := GetToken(SkipSpace(r)); var list := ParseRedirs(tok.rest);
            && argc + 1 < MAXARGS && list.Redirections? && ParseArgs(list.rest, argc + 1).Arguments?
            && |list.rest| < |r| && Lex(r) == [Word(tok.text)] + Lex(tok.rest)
            && var more := ParseArgs(list.rest, argc + 1);
               ParseArgs(r, argc) == Arguments([tok.text] + more.argv, list.list + more.list, more.rest)
  {
    ArgsUnfold(r, argc);
    SkipTwice(r);
    FirstLexeme(r);
    assert Lex(r) == [Lex(r)[0]] + Lex(r)[1..];
  }

  /** One word, the redirections rs behind it, and the pieces qs from the rest of the line. */
  lemma GroupTree(w: string, rs: seq<Piece>, qs: seq<Piece>) returns (ps: seq<Piece>)
    requires Redirects(rs) && Words(qs)
    ensures Words(ps) && PieceTokens(ps) == [Word(w)] + (PieceTokens(rs) + PieceTokens(qs))
    ensures WordsOf(ps) == [w] + WordsOf(qs) && RedirsOf(ps) == RedirsOf(rs) + RedirsOf(qs)
  {
    var rest := rs + qs;
    ps := [Arg(w)] + rest;
    assert ps[1..] == rest;
    PiecesJoin(rs, qs);
    NoWords(rs);
    forall p | p in ps && p.To? ensures p.op in "<>+" {
      assert p in rs || p in qs;
    }
  }

  lemma ArgsEndTree(r: string, argc: nat)
    requires argc < MAXARGS && ParseArgs(r, argc).Arguments?
    requires Peek(r, "|)&;") || GetToken(SkipSpace(r)).kind != 'a'
    ensures var p := ParseArgs(r, argc); p.argv == [] && p.list == [] && Lex(p.rest) == Lex(r)
  {
    LexSkip(r);
    SkipTwice(r);
    FirstLexeme(r);
    LexSkip(GetToken(r).rest);
  }

  /** ps is what parseexec's loop has read from r. */
  ghost predicate ArgsWritten(r: string, argc: nat, ps: seq<Piece>) {
    argc < MAXARGS &&
    var p := ParseArgs(r, argc);
    && p.Arguments? && Words(ps) && WordsOf(ps) == p.argv && RedirsOf(ps) == p.list
    && Lex(r) == PieceTokens(ps) + Lex(p.rest)
  }

  /** parseexec's loop reads from r on, and comes to an end. */
  predicate ReadsArgs(r: string, argc: nat) {
    argc < MAXARGS && ParseArgs(r, argc).Arguments?
  }

  predicate EndsArgs(r: string) {
    Peek(r, "|)&;") || GetToken(SkipSpace(r)).kind != 'a'
  }

  /** The line behind the first word, and behind the redirections that follow it. */
  lemma WordThenRedirs(r: string, argc: nat) returns (tail: string, rest: string)
    requires ReadsArgs(r, argc) && !EndsArgs(r)
    ensures tail == GetToken(SkipSpace(r)).rest && ParseRedirs(tail).Redirections? && rest == ParseRedirs(tail).rest
    ensures |rest| < |r| && ReadsArgs(rest, argc + 1)
  {
    ArgsUnfolds(r, argc);
    tail := GetToken(SkipSpace(r)).rest;
    rest := ParseRedirs(tail).rest;
  }

  lemma ArgsWrittenMore(r: string, argc: nat, tail: string, rest: string, rs: seq<Piece>, qs: seq<Piece>)
    returns (ps: seq<Piece>)
    requires ReadsArgs(r, argc) && !EndsArgs(r) && tail == GetToken(SkipSpace(r)).rest
    requires RedirsWritten(tail, rs) && rest == ParseRedirs(tail).rest && ArgsWritten(rest, argc + 1, qs)
    ensures ArgsWritten(r, argc, ps)
  {
    ArgsUnfolds(r, argc);
    var tok := GetToken(SkipSpace(r));
    var end := Lex(ParseArgs(rest, argc + 1).rest);
    ps := GroupTree(tok.text, rs, qs);
    Regroup([Word(tok.text)], PieceTokens(rs) + PieceTokens(qs), end);
    Regroup(PieceTokens(rs), PieceTokens(qs), end);
  }

  lemma ArgsWrittenEnd(r: string, argc: nat)
    requires ReadsArgs(r, argc) && EndsArgs(r)
    ensures ArgsWritten(r, argc, [])
  {
    ArgsEndTree(r, argc);
  }

  lemma {:induction false} ArgsTree(r: string, argc: nat) returns (ps: seq<Piece>)
    requires ReadsArgs(r, argc)
    ensures ArgsWritten(r, argc, ps)
    decreases |r|
  {
    if EndsArgs(r) {
      ps := [];
      ArgsWrittenEnd(r, argc);
    } else {
      var tail, rest := WordThenRedirs(r, argc);
      var rs := RedirsTree(tail);
      var qs := ArgsTree(rest, argc + 1);
      ps := ArgsWrittenMore(r, argc, tail, rest, rs, qs);
    }
  }

  lemma AllProper(rs: seq<Piece>, qs: seq<Piece>)
    requires Redirects(rs) && Words(qs) && |WordsOf(qs)| < MAXARGS
    ensures Grammatical(rs + qs) && WordsOf(rs + qs) == WordsOf(qs) && RedirsOf(rs + qs) == RedirsOf(rs) + RedirsOf(qs)
    ensures PieceTokens(rs + qs) == PieceTokens(rs) + PieceTokens(qs)
  {
    PiecesJoin(rs, qs);
    NoWords(rs);
    forall p | p in rs + qs && p.To? ensures p.op in "<>+" {
      assert p in rs || p in qs;
    }
  }

  lemma SimpleTree(r: string) returns (u: Unit)
    requires !Peek(r, "(") && ParseExec(r).Ok?
    ensures var p := ParseExec(r); GoodUnit(u) && UnitMeans(u) == p.cmd && Lex(r) == UnitTokens(u) + Lex(p.rest)
  {
    var s := SkipSpace(r);
    LexSkip(r);
    var list := ParseRedirs(s);
    var rs := RedirsTree(s);
    var qs := ArgsTree(list.rest, 0);
    var args := ParseArgs(list.rest, 0);
    assert ParseExec(r) == Ok(Wrap(Exec(args.argv), list.list + args.list), args.rest);
    AllProper(rs, qs);
    u := Simple(rs + qs);
    InsideWraps(Exec(args.argv), rs + qs);
    Regroup(PieceTokens(rs), PieceTokens(qs), Lex(args.rest));
  }

  lemma {:induction false} BlockTree(r: string) returns (u: Unit)
    requires Peek(r, "(") && ParseExec(r).Ok?
    ensures var p := ParseExec(r); GoodUnit(u) && UnitMeans(u) == p.cmd && Lex(r) == UnitTokens(u) + Lex(p.rest)
    decreases |r|, 0
  {
    LexPeek(r, '(');
    var inner := GetToken(r).rest;
    var l := LineTree(inner);
    var rest := ParseLine(inner).rest;
    LexPeek(rest, ')');
    var tail := GetToken(rest).rest;
    var rs := RedirsTree(tail);
    u := Block(l, rs);
    InsideWraps(LineMeans(l), rs);
    BlockTokens(LineTokens(l), PieceTokens(rs), Lex(ParseRedirs(tail).rest));
  }

  lemma {:induction false} PipesTree(r: string) returns (p: Pipes)
    requires ParsePipe(r).Ok?
    ensures GoodPipes(p) && PipesMean(p) == ParsePipe(r).cmd && Lex(r) == PipesTokens(p) + Lex(ParsePipe(r).rest)
    decreases |r|, 2
  {
    var u;
    if Peek(r, "(") {
      u := BlockTree(r);
    } else {
      u := SimpleTree(r);
    }
    var rest := ParseExec(r).rest;
    if !Peek(rest, "|") {
      p := Last(u);
      LexSkip(rest);
    } else {
      LexPeek(rest, '|');
      var tail := GetToken(rest).rest;
      var more := PipesTree(tail);
      p := Bar(u, more);
      Regroup(UnitTokens(u) + [Op('|')], PipesTokens(more), Lex(ParsePipe(tail).rest));
      Regroup(UnitTokens(u), [Op('|')], PipesTokens(more) + Lex(ParsePipe(tail).rest));
    }
  }

  /** n is how many & the loop of parseline has read from r. */
  ghost predicate BacksWritten(c: Cmd, r: string, n: nat) {
    var p := ParseBacks(c, r); p.cmd == Backs(c, n) && Lex(r) == Amps(n) + Lex(p.rest)
  }

  lemma Shorter(r: string, toks: string)
    requires Peek(r, toks) && '\0' !in toks
    ensures |GetToken(r).rest| < |r|
  {
  }

  lemma NoBacks(c: Cmd, r: string)
    requires !Peek(r, "&")
    ensures BacksWritten(c, r, 0)
  {
    LexSkip(r);
  }

  lemma BackTree(c: Cmd, r: string, m: nat)
    requires Peek(r, "&") && BacksWritten(Back(c), GetToken(r).rest, m)
    ensures BacksWritten(c, r, m + 1)
  {
    LexPeek(r, '&');
    Regroup([Op('&')], Amps(m), Lex(ParseBacks(Back(c), GetToken(r).rest).rest));
  }

  lemma {:induction false} BacksTree(c: Cmd, r: string) returns (n: nat)
    ensures BacksWritten(c, r, n)
    decreases |r|
  {
    if !Peek(r, "&") {
      n := 0;
      NoBacks(c, r);
    } else {
      Shorter(r, "&");
      var m := BacksTree(Back(c), GetToken(r).rest);
      n := m + 1;
      BackTree(c, r, m);
    }
  }

  lemma {:induction false} LineTree(r: string) returns (l: Line)
    requires ParseLine(r).Ok?
    ensures GoodLine(l) && LineMeans(l) == ParseLine(r).cmd && Lex(r) == LineTokens(l) + Lex(ParseLine(r).rest)
    decreases |r|, 3
  {
    var p := PipesTree(r);
    var c, rest := ParsePipe(r).cmd, ParsePipe(r).rest;
    var n := BacksTree(c, rest);
    var end := ParseBacks(c, rest).rest;
    if !Peek(end, ";") {
      l := End(p, n);
      Regroup(PipesTokens(p), Amps(n), Lex(end));
    } else {
      LexPeek(end, ';');
      var tail := GetToken(end).rest;
      var more := LineTree(tail);
      l := Semi(p, n, more);
      SemiTokens(PipesTokens(p), Amps(n), LineTokens(more), Lex(ParseLine(tail).rest));
    }
  }

  /** A line parses to c exactly when its tokens are those of a line of the grammar that means c. */
  lemma ParsesIffWritten(line: string, c: Cmd)
    requires '\0' !in line
    ensures ParseCmd(line) == Ok(c, "") <==>
            exists l: Line :: GoodLine(l) && Lex(line) == LineTokens(l) && LineMeans(l) == c
  {
    if ParseCmd(line) == Ok(c, "") {
      var l := LineTree(line);
      LexSkip(ParseLine(line).rest);
    }
    if l: Line :| GoodLine(l) && Lex(line) == LineTokens(l) && LineMeans(l) == c {
      LinesParse(line, l);
    }
  }

  // ----- lines as people write them -----

  lemma OneUnit(u: Unit)
    ensures PipesTokens(Last(u)) == UnitTokens(u) && PipesMean(Last(u)) == UnitMeans(u) && Amps(0) == []
    ensures LineTokens(End(Last(u), 0)) == UnitTokens(u) && LineMeans(End(Last(u), 0)) == UnitMeans(u)
    ensures GoodUnit(u) ==> GoodLine(End(Last(u), 0))
  {
    assert UnitTokens(u) + [] == UnitTokens(u);
  }

  /** Words with redirections before, between and behind them. */
  lemma RedirectedCommand(line: string, ps: seq<Piece>)
    requires '\0' !in line && Grammatical(ps) && Lex(line) == PieceTokens(ps)
    ensures ParseCmd(line) == Ok(Inside(Exec(WordsOf(ps)), ps), "")
  {
    OneUnit(Simple(ps));
    LinesParse(line, End(Last(Simple(ps)), 0));
  }

  /** a | b ; c is (a | b) ; c. */
  lemma PipeBeforeList(line: string, a: Unit, b: Unit, c: Unit)
    requires '\0' !in line && GoodUnit(a) && GoodUnit(b) && GoodUnit(c)
    requires Lex(line) == UnitTokens(a) + [Op('|')] + UnitTokens(b) + [Op(';')] + UnitTokens(c)
    ensures ParseCmd(line) == Ok(List(Pipe(UnitMeans(a), UnitMeans(b)), UnitMeans(c)), "")
  {
    OneUnit(b);
    OneUnit(c);
    var p := Bar(a, Last(b));
    assert PipesTokens(p) == UnitTokens(a) + [Op('|')] + UnitTokens(b) && PipesTokens(p) + Amps(0) == PipesTokens(p);
    assert Backs(PipesMean(p), 0) == Pipe(UnitMeans(a), UnitMeans(b));
    LinesParse(line, Semi(p, 0, End(Last(c), 0)));
  }

  /** a | b | c is a | (b | c). */
  lemma PipesGroupRight(line: string, a: Unit, b: Unit, c: Unit)
    requires '\0' !in line && GoodUnit(a) && GoodUnit(b) && GoodUnit(c)
    requires Lex(line) == UnitTokens(a) + [Op('|')] + (UnitTokens(b) + [Op('|')] + UnitTokens(c))
    ensures ParseCmd(line) == Ok(Pipe(UnitMeans(a), Pipe(UnitMeans(b), UnitMeans(c))), "")
  {
    OneUnit(c);
    var p := Bar(b, Last(c));
    assert PipesTokens(p) == UnitTokens(b) + [Op('|')] + UnitTokens(c);
    var q := Bar(a, p);
    assert PipesTokens(q) == UnitTokens(a) + [Op('|')] + PipesTokens(p) && PipesTokens(q) + Amps(0) == PipesTokens(q);
    assert Backs(PipesMean(q), 0) == Pipe(UnitMeans(a), PipesMean(p)) && GoodPipes(p);
    LinesParse(line, End(q, 0));
  }

  /** a ; b & is a ; (b &). */
  lemma BackTakesLast(line: string, a: Unit, b: Unit)
    requires '\0' !in line && GoodUnit(a) && GoodUnit(b)
    requires Lex(line) == UnitTokens(a) + [Op(';')] + (UnitTokens(b) + [Op('&')])
    ensures ParseCmd(line) == Ok(List(UnitMeans(a), Back(UnitMeans(b))), "")
  {
    OneUnit(a);
    OneUnit(b);
    var l := End(Last(b), 1);
    assert Amps(1) == [Op('&')] + Amps(0) && LineTokens(l) == UnitTokens(b) + [Op('&')];
    assert Backs(UnitMeans(b), 1) == Backs(Back(UnitMeans(b)), 0) == Back(UnitMeans(b));
    assert PipesTokens(Last(a)) + Amps(0) == UnitTokens(a) && Backs(UnitMeans(a), 0) == UnitMeans(a);
    LinesParse(line, Semi(Last(a), 0, l));
  }
}
