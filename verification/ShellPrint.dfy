/** Printing command trees of user/sh.c with parentheses, and parsing them back. */
module ShellPrint {
  import opened ShellSyntax

  // ---- Printing ----

  function Op(mode: int, fd: int): string {
    if fd == 0 then "<" else if mode == O_WRONLY + O_CREATE then ">>" else ">"
  }

  function Words(args: seq<string>): string {
    if args == [] then "" else args[0] + " " + Words(args[1..])
  }

  function Print(t: Cmd<string>): string {
    match t
    case Exec(args) => Words(args)
    case Redir(c, f, mode, fd) => "(" + Print(c) + ")" + (Op(mode, fd) + f + " ")
    case Pipe(l, r) => "(" + Print(l) + ")" + "|" + "(" + Print(r) + ")"
    case List(l, r) => "(" + Print(l) + ")" + ";" + "(" + Print(r) + ")"
    case Back(c) => "(" + Print(c) + ")" + "&"
  }

  predicate IsPlain(s: string) {
    s != "" && forall k :: 0 <= k < |s| ==> Plain(s[k])
  }

  /** Trees as the parser makes them: plain words, and the three kinds of redirection. */
  predicate Proper(t: Cmd<string>) {
    match t
    case Exec(args) => forall i :: 0 <= i < |args| ==> IsPlain(args[i])
    case Redir(c, f, mode, fd) =>
      && Proper(c) && IsPlain(f)
      && ((mode == O_RDONLY && fd == 0) || (fd == 1 && mode in {O_WRONLY + O_CREATE, O_WRONLY + O_CREATE + O_TRUNC}))
    case Pipe(l, r) => Proper(l) && Proper(r)
    case List(l, r) => Proper(l) && Proper(r)
    case Back(c) => Proper(c)
  }

  /** No command has ten arguments. */
  predicate Small(t: Cmd<string>) {
    match t
    case Exec(args) => |args| < MAXARGS
    case Redir(c, _, _, _) => Small(c)
    case Pipe(l, r) => Small(l) && Small(r)
    case List(l, r) => Small(l) && Small(r)
    case Back(c) => Small(c)
  }

  // ---- Tokens by their text ----

  datatype Piece = Mark(c: char) | Text(s: string)

  function Slice(w: string, s: Span): string {
    if s.q <= s.eq <= |w| then w[s.q..s.eq] else ""
  }

  function PieceOf(w: string, t: Tok): Piece {
    match t case Sym(c) => Mark(c) case Word(s) => Text(Slice(w, s))
  }

  function Pieces(w: string, ts: seq<Tok>): (r: seq<Piece>)
    ensures |r| == |ts|
  {
    seq(|ts|, i requires 0 <= i < |ts| => PieceOf(w, ts[i]))
  }

  /** The command tree with the texts of its words. */
  function Read(w: string, c: Cmd<Span>): Cmd<string> {
    match c
    case Exec(args) => Exec(seq(|args|, i requires 0 <= i < |args| => Slice(w, args[i])))
    case Redir(d, f, mode, fd) => Redir(Read(w, d), Slice(w, f), mode, fd)
    case Pipe(l, r) => Pipe(Read(w, l), Read(w, r))
    case List(l, r) => List(Read(w, l), Read(w, r))
    case Back(d) => Back(Read(w, d))
  }

  function Texts(args: seq<string>): (r: seq<Piece>)
    ensures |r| == |args| && forall i :: 0 <= i < |args| ==> r[i] == Text(args[i])
  {
    if args == [] then [] else [Text(args[0])] + Texts(args[1..])
  }

  function OpMark(mode: int, fd: int): char {
    if fd == 0 then '<' else if mode == O_WRONLY + O_CREATE then '+' else '>'
  }

  function Block(ps: seq<Piece>): seq<Piece> {
    [Mark('(')] + ps + [Mark(')')]
  }

  function Toks(t: Cmd<string>): seq<Piece> {
    match t
    case Exec(args) => Texts(args)
    case Redir(c, f, mode, fd) => Block(Toks(c)) + [Mark(OpMark(mode, fd)), Text(f)]
    case Pipe(l, r) => Block(Toks(l)) + [Mark('|')] + Block(Toks(r))
    case List(l, r) => Block(Toks(l)) + [Mark(';')] + Block(Toks(r))
    case Back(c) => Block(Toks(c)) + [Mark('&')]
  }

  // ---- The lexer finds the tokens of the print ----

  ghost predicate Here(w: string, i: nat, s: string) {
    i + |s| <= |w| && w[i..i + |s|] == s
  }

  /** Wherever the text `s` stands, the lexer finds `ps` there. */
  ghost predicate Gives(s: string, ps: seq<Piece>) {
    forall w, i: nat :: Here(w, i, s) ==> Pieces(w, Lex(w, i)) == ps + Pieces(w, Lex(w, i + |s|))
  }

  lemma GivesBoth(a: string, ps: seq<Piece>, b: string, qs: seq<Piece>)
    requires Gives(a, ps) && Gives(b, qs)
    ensures Gives(a + b, ps + qs)
  {
    hide Lex, Pieces;
    forall w, i: nat | Here(w, i, a + b) ensures Pieces(w, Lex(w, i)) == ps + qs + Pieces(w, Lex(w, i + |a + b|)) {
      var j := i + |a|;
      assert w[i..i + |a + b|][..|a|] == w[i..j] && w[i..i + |a + b|][|a|..] == w[j..j + |b|];
      assert Here(w, i, a) && Here(w, j, b);
    }
  }

  lemma GivesNothing()
    ensures Gives("", [])
  {
  }

  lemma OneTok(w: string, i: nat)
    requires i < |w| && !White(w[i])
    ensures Pieces(w, Lex(w, i)) == [PieceOf(w, TokAt(w, i))] + Pieces(w, Lex(w, TokEnd(w, i)))
  {
    var rest := Lex(w, TokEnd(w, i));
    assert Lex(w, i) == [TokAt(w, i)] + rest;
  }

  lemma GivesMark(c: char)
    requires c in "(|);&<"
    ensures Gives([c], [Mark(c)])
  {
    forall w, i: nat | Here(w, i, [c]) ensures Pieces(w, Lex(w, i)) == [Mark(c)] + Pieces(w, Lex(w, i + 1)) {
      assert w[i] == w[i..i + 1][0] == c;
      OneTok(w, i);
    }
  }

  lemma HereParts(w: string, i: nat, a: string, b: string)
    requires Here(w, i, a + b)
    ensures Here(w, i, a) && Here(w, i + |a|, b)
  {
    var all := w[i..i + |a + b|];
    assert all[..|a|] == w[i..i + |a|] && all[|a|..] == w[i + |a|..i + |a| + |b|];
  }

  lemma HereAt(w: string, i: nat, s: string, k: nat)
    requires Here(w, i, s) && k < |s|
    ensures w[i + k] == s[k]
  {
    assert w[i..i + |s|][k] == s[k];
  }

  lemma WordHere(w: string, i: nat, s: string)
    requires IsPlain(s) && Here(w, i, s + " ")
    ensures i < |w| && !White(w[i]) && !Symbol(w[i]) && WordEnd(w, i) == i + |s| && w[i..i + |s|] == s
    ensures i + |s| < |w| && Lex(w, i + |s|) == Lex(w, i + |s| + 1)
  {
    var e := i + |s|;
    HereParts(w, i, s, " ");
    HereAt(w, e, " ", 0);
    forall k | i <= k < e ensures !White(w[k]) && !Symbol(w[k]) {
      HereAt(w, i, s, k - i);
      assert Plain(s[k - i]);
    }
    assert Skip(w, e) == Skip(w, e + 1);
  }

  lemma GivesWord(s: string)
    requires IsPlain(s)
    ensures Gives(s + " ", [Text(s)])
  {
    hide Lex, Pieces;
    forall w, i: nat | Here(w, i, s + " ")
      ensures Pieces(w, Lex(w, i)) == [Text(s)] + Pieces(w, Lex(w, i + |s + " "|))
    {
      WordHere(w, i, s);
      OneTok(w, i);
    }
  }

  /** An operator and its file: ">" does not run into the file name. */
  lemma OpHere(w: string, i: nat, mode: int, fd: int, f: string)
    requires IsPlain(f) && Here(w, i, Op(mode, fd)) && Here(w, i + |Op(mode, fd)|, f + " ")
    ensures i < |w| && !White(w[i]) && TokEnd(w, i) == i + |Op(mode, fd)|
    ensures PieceOf(w, TokAt(w, i)) == Mark(OpMark(mode, fd))
  {
    var op := Op(mode, fd);
    WordHere(w, i + |op|, f);
    HereAt(w, i, op, 0);
    if |op| == 2 {
      HereAt(w, i, op, 1);
    }
  }

  lemma GivesFile(mode: int, fd: int, f: string)
    requires IsPlain(f)
    ensures Gives(Op(mode, fd) + f + " ", [Mark(OpMark(mode, fd)), Text(f)])
  {
    var op, m := Op(mode, fd), OpMark(mode, fd);
    var all := op + f + " ";
    assert all == op + (f + " ");
    forall w, i: nat | Here(w, i, all)
      ensures Pieces(w, Lex(w, i)) == [Mark(m), Text(f)] + Pieces(w, Lex(w, i + |all|))
    {
      FileHere(w, i, mode, fd, f);
    }
  }

  lemma FileHere(w: string, i: nat, mode: int, fd: int, f: string)
    requires IsPlain(f) && Here(w, i, Op(mode, fd) + (f + " "))
    ensures var n := i + |Op(mode, fd)| + |f| + 1;
            n <= |w| && Pieces(w, Lex(w, i)) == [Mark(OpMark(mode, fd)), Text(f)] + Pieces(w, Lex(w, n))
  {
    hide Lex, Pieces, Op, OpMark, Slice, Skip, TokAt, WordEnd, TokEnd, Gives, Here, IsPlain;
    var op, m, word := Op(mode, fd), OpMark(mode, fd), f + " ";
    var j, n := i + |op|, i + |op| + |f| + 1;
    HereParts(w, i, op, word);
    OpHere(w, i, mode, fd, f);
    OneTok(w, i);
    GivesWord(f);
    GivesHere(w, j, word, [Text(f)]);
    var rest := Pieces(w, Lex(w, n));
    assert [Mark(m)] + ([Text(f)] + rest) == [Mark(m), Text(f)] + rest;
  }

  lemma GivesHere(w: string, i: nat, s: string, ps: seq<Piece>)
    requires Gives(s, ps) && Here(w, i, s)
    ensures i + |s| <= |w| && Pieces(w, Lex(w, i)) == ps + Pieces(w, Lex(w, i + |s|))
  {
  }

  lemma {:induction false} GivesWords(args: seq<string>)
    requires forall i :: 0 <= i < |args| ==> IsPlain(args[i])
    ensures Gives(Words(args), Texts(args))
  {
    if args == [] {
      GivesNothing();
    } else {
      GivesWord(args[0]);
      GivesWords(args[1..]);
      GivesBoth(args[0] + " ", [Text(args[0])], Words(args[1..]), Texts(args[1..]));
    }
  }

  lemma GivesBlock(s: string, ps: seq<Piece>)
    requires Gives(s, ps)
    ensures Gives("(" + s + ")", Block(ps))
  {
    GivesMark('(');
    GivesMark(')');
    GivesBoth("(", [Mark('(')], s, ps);
    GivesBoth("(" + s, [Mark('(')] + ps, ")", [Mark(')')]);
  }

  lemma GivesTwo(a: string, ps: seq<Piece>, c: char, b: string, qs: seq<Piece>)
    requires Gives(a, ps) && Gives(b, qs) && c in "|;"
    ensures Gives("(" + a + ")" + [c] + "(" + b + ")", Block(ps) + [Mark(c)] + Block(qs))
  {
    GivesBlock(a, ps);
    GivesBlock(b, qs);
    GivesMark(c);
    GivesBoth("(" + a + ")", Block(ps), [c], [Mark(c)]);
    GivesBoth("(" + a + ")" + [c], Block(ps) + [Mark(c)], "(" + b + ")", Block(qs));
    assert "(" + a + ")" + [c] + "(" + b + ")" == "(" + a + ")" + [c] + ("(" + b + ")");
  }

  lemma {:induction false} GivesPrint(t: Cmd<string>)
    requires Proper(t)
    ensures Gives(Print(t), Toks(t))
  {
    hide Gives, Block, Op;
    match t
    case Exec(args) => GivesWords(args);
    case Redir(c, f, mode, fd) =>
      GivesPrint(c);
      GivesBlock(Print(c), Toks(c));
      GivesFile(mode, fd, f);
      GivesBoth("(" + Print(c) + ")", Block(Toks(c)), Op(mode, fd) + f + " ", [Mark(OpMark(mode, fd)), Text(f)]);
    case Pipe(l, r) =>
      GivesPrint(l);
      GivesPrint(r);
      GivesTwo(Print(l), Toks(l), '|', Print(r), Toks(r));
    case List(l, r) =>
      GivesPrint(l);
      GivesPrint(r);
      GivesTwo(Print(l), Toks(l), ';', Print(r), Toks(r));
    case Back(c) =>
      GivesPrint(c);
      GivesBlock(Print(c), Toks(c));
      GivesMark('&');
      GivesBoth("(" + Print(c) + ")", Block(Toks(c)), "&", [Mark('&')]);
  }

  // ---- The parser finds the tree of the tokens ----

  /** The tokens stand for `ps`, followed by others. */
  ghost predicate Starts(w: string, ts: seq<Tok>, ps: seq<Piece>) {
    |ps| <= |ts| && forall k :: 0 <= k < |ps| ==> PieceOf(w, ts[k]) == ps[k]
  }

  /** Nothing, or a closing parenthesis, follows. */
  predicate Closed(ts: seq<Tok>) {
    ts == [] || ts[0] == Sym(')')
  }

  lemma StartsParts(w: string, ts: seq<Tok>, a: seq<Piece>, b: seq<Piece>)
    requires Starts(w, ts, a + b)
    ensures Starts(w, ts, a) && |a| <= |ts| && Starts(w, ts[|a|..], b)
  {
    forall k | 0 <= k < |a| ensures PieceOf(w, ts[k]) == a[k] {
      assert (a + b)[k] == a[k];
    }
    forall k | 0 <= k < |b| ensures PieceOf(w, ts[|a|..][k]) == b[k] {
      assert (a + b)[|a| + k] == b[k];
    }
  }

  /** What the parser makes of the tokens of `t`: the tree, unless a command has ten arguments. */
  ghost predicate Rebuilt(w: string, r: Parsed, t: Cmd<string>, rest: seq<Tok>) {
    if Small(t) then r.Ok? && Read(w, r.cmd) == t && r.rest == rest else r == Err(TooManyArgs)
  }

  function Slices(w: string, args: seq<Span>): seq<string> {
    seq(|args|, i requires 0 <= i < |args| => Slice(w, args[i]))
  }

  lemma NoFiles(ts: seq<Tok>)
    requires Closed(ts) || ts[0].Word?
    ensures PFiles(ts) == Got([], ts)
  {
  }

  lemma ArgsStep(done: seq<Span>, ts: seq<Tok>)
    requires ts != [] && ts[0].Word? && (Closed(ts[1..]) || ts[1].Word?) && |done| + 1 < MAXARGS
    ensures PArgs(done, [], ts) == PArgs(done + [ts[0].w], [], ts[1..])
  {
    NoFiles(ts[1..]);
    var none: seq<File<Span>> := [];
    assert none + none == none;
  }

  lemma StartsLater(w: string, ts: seq<Tok>, args: seq<string>)
    requires args != [] && Starts(w, ts, Texts(args))
    ensures ts[0].Word? && Slice(w, ts[0].w) == args[0] && (|args| > 1 ==> ts[1].Word?)
    ensures Starts(w, ts[1..], Texts(args[1..])) && ts[1..][|args| - 1..] == ts[|args|..]
  {
    assert PieceOf(w, ts[0]) == Texts(args)[0];
    if |args| > 1 {
      assert PieceOf(w, ts[1]) == Texts(args)[1];
    }
    forall k | 0 <= k < |args| - 1 ensures PieceOf(w, ts[1..][k]) == Texts(args[1..])[k] {
      assert PieceOf(w, ts[k + 1]) == Texts(args)[k + 1];
    }
  }

  lemma SlicesMore(w: string, done: seq<Span>, s: Span, args: seq<string>)
    requires args != [] && Slice(w, s) == args[0]
    ensures Slices(w, done + [s]) + args[1..] == Slices(w, done) + args
  {
    assert Slices(w, done + [s]) == Slices(w, done) + [args[0]];
    assert args == [args[0]] + args[1..];
  }

  lemma {:induction false} ArgsBack(w: string, args: seq<string>, done: seq<Span>, ts: seq<Tok>)
    requires Starts(w, ts, Texts(args)) && Closed(ts[|args|..]) && |done| < MAXARGS
    ensures var r := PArgs(done, [], ts);
            if |done| + |args| < MAXARGS
            then r.Ok? && r.rest == ts[|args|..] && r.cmd.Exec? && Slices(w, r.cmd.args) == Slices(w, done) + args
            else r == Err(TooManyArgs)
    decreases |args|
  {
    if args == [] {
      assert ts[0..] == ts;
      assert Slices(w, done) + args == Slices(w, done);
    } else {
      StartsLater(w, ts, args);
      if |done| + 1 < MAXARGS {
        ArgsStep(done, ts);
        SlicesMore(w, done, ts[0].w, args);
        ArgsBack(w, args[1..], done + [ts[0].w], ts[1..]);
        hide PArgs, Slices, Texts, Starts;
      }
    }
  }

  lemma ExecBack(w: string, args: seq<string>, ts: seq<Tok>)
    requires Starts(w, ts, Texts(args)) && Closed(ts[|args|..])
    ensures Rebuilt(w, PExec(ts), Exec(args), ts[|args|..])
  {
    if args == [] {
      assert ts[0..] == ts;
    } else {
      assert PieceOf(w, ts[0]) == Texts(args)[0];
    }
    NoFiles(ts);
    ArgsBack(w, args, [], ts);
    var r := PExec(ts);
    if r.Ok? {
      assert Slices(w, r.cmd.args) == [] + args;
    }
  }

  /** A command that nothing follows is the whole line. */
  lemma Alone(ts: seq<Tok>)
    requires PExec(ts).Ok? ==> Closed(PExec(ts).rest)
    ensures PLine(ts) == PExec(ts) && PPipe(ts) == PExec(ts)
  {
  }

  /** A tree in parentheses: what follows are its redirections. */
  lemma BlockBack(w: string, ts: seq<Tok>, t: Cmd<string>)
    requires Starts(w, ts, Block(Toks(t)))
    requires Rebuilt(w, PLine(ts[1..]), t, ts[1..][|Toks(t)|..])
    ensures var tail := ts[|Toks(t)| + 2..];
            if Small(t)
            then
              && PLine(ts[1..]).Ok? && Read(w, PLine(ts[1..]).cmd) == t
              && PExec(ts) == (var f := PFiles(tail);
                               if f.Not? then Err(f.error) else Ok(Wrap(PLine(ts[1..]).cmd, f.files), f.rest))
            else PExec(ts) == Err(TooManyArgs)
  {
    var n := |Toks(t)|;
    assert Block(Toks(t))[0] == Mark('(') && Block(Toks(t))[n + 1] == Mark(')');
    assert PieceOf(w, ts[0]) == Mark('(') && PieceOf(w, ts[n + 1]) == Mark(')');
    var rest := ts[1..][n..];
    assert rest == ts[n + 1..] && rest[1..] == ts[n + 2..];
  }

  /** The inside of a block. */
  lemma Inside(w: string, ts: seq<Tok>, ps: seq<Piece>)
    requires Starts(w, ts, Block(ps))
    ensures |ps| + 2 <= |ts| && Starts(w, ts[1..], ps) && Closed(ts[1..][|ps|..])
  {
    var b := Block(ps);
    forall k | 0 <= k < |ps| ensures PieceOf(w, ts[1..][k]) == ps[k] {
      assert b[k + 1] == ps[k];
    }
    assert PieceOf(w, ts[|ps| + 1]) == b[|ps| + 1] == Mark(')');
  }

  lemma OneFile(w: string, ts: seq<Tok>, f: string, mode: int, fd: int)
    requires Starts(w, ts, [Mark(OpMark(mode, fd)), Text(f)]) && Closed(ts[2..])
    requires (mode == O_RDONLY && fd == 0) || (fd == 1 && mode in {O_WRONLY + O_CREATE, O_WRONLY + O_CREATE + O_TRUNC})
    ensures ts[1].Word? && Slice(w, ts[1].w) == f
    ensures PFiles(ts) == Got([File(ts[1].w, mode, fd)], ts[2..])
  {
    assert PieceOf(w, ts[0]) == Mark(OpMark(mode, fd)) && PieceOf(w, ts[1]) == Text(f);
    NoFiles(ts[2..]);
    assert [File(ts[1].w, mode, fd)] + [] == [File(ts[1].w, mode, fd)];
  }

  lemma RedirBack(w: string, t: Cmd<string>, ts: seq<Tok>)
    requires t.Redir? && Proper(t) && Starts(w, ts, Toks(t)) && Closed(ts[|Toks(t)|..])
    requires Starts(w, ts, Block(Toks(t.cmd))) && Rebuilt(w, PLine(ts[1..]), t.cmd, ts[1..][|Toks(t.cmd)|..])
    ensures Rebuilt(w, PLine(ts), t, ts[|Toks(t)|..])
  {
    var n := |Toks(t.cmd)| + 2;
    StartsParts(w, ts, Block(Toks(t.cmd)), [Mark(OpMark(t.mode, t.fd)), Text(t.file)]);
    BlockBack(w, ts, t.cmd);
    var tail := ts[n..];
    assert tail[2..] == ts[|Toks(t)|..];
    OneFile(w, tail, t.file, t.mode, t.fd);
    var f := File(tail[1].w, t.mode, t.fd);
    assert [f][..0] == [];
    Alone(ts);
  }

  lemma BackBack(w: string, t: Cmd<string>, ts: seq<Tok>)
    requires t.Back? && Proper(t) && Starts(w, ts, Toks(t)) && Closed(ts[|Toks(t)|..])
    requires Starts(w, ts, Block(Toks(t.cmd))) && Rebuilt(w, PLine(ts[1..]), t.cmd, ts[1..][|Toks(t.cmd)|..])
    ensures Rebuilt(w, PLine(ts), t, ts[|Toks(t)|..])
  {
    var n := |Toks(t.cmd)| + 2;
    StartsParts(w, ts, Block(Toks(t.cmd)), [Mark('&')]);
    BlockBack(w, ts, t.cmd);
    var tail := ts[n..];
    assert PieceOf(w, tail[0]) == [Mark('&')][0];
    assert tail[1..] == ts[|Toks(t)|..];
    if Small(t.cmd) {
      var none: seq<File<Span>> := [];
      assert PFiles(tail) == Got(none, tail);
      InBack(ts, PLine(ts[1..]).cmd, tail);
    }
  }

  lemma InBack(ts: seq<Tok>, c: Cmd<Span>, tail: seq<Tok>)
    requires PExec(ts) == Ok(c, tail) && tail != [] && tail[0] == Sym('&') && Closed(tail[1..])
    ensures PLine(ts) == Ok(Back(c), tail[1..])
  {
    hide PExec;
    assert PPipe(ts) == Ok(c, tail);
    assert PBacks(Back(c), tail[1..]) == Ok(Back(c), tail[1..]);
  }

  /** Two blocks with a mark between them. */
  lemma TwoBack(w: string, l: Cmd<string>, c: char, r: Cmd<string>, ts: seq<Tok>)
    requires c in "|;" && Starts(w, ts, Block(Toks(l)) + [Mark(c)] + Block(Toks(r)))
    requires Closed(ts[|Toks(l)| + |Toks(r)| + 5..])
    requires Rebuilt(w, PLine(ts[1..]), l, ts[1..][|Toks(l)|..])
    requires var right := ts[|Toks(l)| + 3..]; Rebuilt(w, PLine(right[1..]), r, right[1..][|Toks(r)|..])
    ensures var right := ts[|Toks(l)| + 3..];
            && (if Small(l) then PExec(ts).Ok? && Read(w, PExec(ts).cmd) == l && PExec(ts).rest == ts[|Toks(l)| + 2..]
                else PExec(ts) == Err(TooManyArgs))
            && ts[|Toks(l)| + 2] == Sym(c)
            && Rebuilt(w, PLine(right), r, ts[|Toks(l)| + |Toks(r)| + 5..]) && PPipe(right) == PLine(right)
  {
    hide PLine, PPipe, PExec, Toks, Small, Read;
    var n, a, b := |Toks(l)| + 2, Block(Toks(l)), Block(Toks(r));
    StartsParts(w, ts, a + [Mark(c)], b);
    StartsParts(w, ts, a, [Mark(c)]);
    var tail, right := ts[n..], ts[n + 1..];
    assert PieceOf(w, tail[0]) == [Mark(c)][0];
    hide Block, Starts;
    BlockBack(w, ts, l);
    var none: seq<File<Span>> := [];
    assert PFiles(tail) == Got(none, tail);
    BlockBack(w, right, r);
    var rest := ts[|Toks(l)| + |Toks(r)| + 5..];
    assert right[|Toks(r)| + 2..] == rest;
    NoFiles(rest);
    Alone(right);
  }

  lemma PipeBack(w: string, l: Cmd<string>, r: Cmd<string>, ts: seq<Tok>)
    requires Starts(w, ts, Block(Toks(l)) + [Mark('|')] + Block(Toks(r)))
    requires Closed(ts[|Toks(l)| + |Toks(r)| + 5..])
    requires Rebuilt(w, PLine(ts[1..]), l, ts[1..][|Toks(l)|..])
    requires var right := ts[|Toks(l)| + 3..]; Rebuilt(w, PLine(right[1..]), r, right[1..][|Toks(r)|..])
    ensures Rebuilt(w, PLine(ts), Pipe(l, r), ts[|Toks(l)| + |Toks(r)| + 5..])
  {
    TwoBack(w, l, '|', r, ts);
    var tail := ts[|Toks(l)| + 2..];
    assert tail[1..] == ts[|Toks(l)| + 3..];
    InPipe(ts);
    hide PLine, PPipe, PExec, Starts, Rebuilt, Toks, Block, Small, Read;
    PipeRebuilt(w, PExec(ts), PPipe(ts[|Toks(l)| + 3..]), l, r, ts[|Toks(l)| + |Toks(r)| + 5..]);
  }

  lemma InPipe(ts: seq<Tok>)
    ensures PExec(ts).Err? ==> PLine(ts) == PExec(ts)
    ensures PExec(ts).Ok? && Head(PExec(ts).rest, "|") ==>
              var l, r := PExec(ts), PPipe(PExec(ts).rest[1..]);
              if r.Err? then PLine(ts) == r
              else !Head(r.rest, "&") && !Head(r.rest, ";") ==> PLine(ts) == Ok(Pipe(l.cmd, r.cmd), r.rest)
  {
    hide PExec;
  }

  lemma PipeRebuilt(w: string, pl: Parsed, pr: Parsed, l: Cmd<string>, r: Cmd<string>, rest: seq<Tok>)
    requires if Small(l) then pl.Ok? && Read(w, pl.cmd) == l else pl == Err(TooManyArgs)
    requires Rebuilt(w, pr, r, rest)
    ensures pr.Ok? ==> pr.rest == rest
    ensures Rebuilt(w, if pl.Err? then pl else if pr.Err? then pr
            else Ok(Pipe(pl.cmd, pr.cmd), pr.rest), Pipe(l, r), rest)
  {
  }

  lemma ListBack(w: string, l: Cmd<string>, r: Cmd<string>, ts: seq<Tok>)
    requires Starts(w, ts, Block(Toks(l)) + [Mark(';')] + Block(Toks(r)))
    requires Closed(ts[|Toks(l)| + |Toks(r)| + 5..])
    requires Rebuilt(w, PLine(ts[1..]), l, ts[1..][|Toks(l)|..])
    requires var right := ts[|Toks(l)| + 3..]; Rebuilt(w, PLine(right[1..]), r, right[1..][|Toks(r)|..])
    ensures Rebuilt(w, PLine(ts), List(l, r), ts[|Toks(l)| + |Toks(r)| + 5..])
  {
    hide PLine, PExec, Rebuilt, Toks, Small, Read, Closed;
    TwoBack(w, l, ';', r, ts);
    var tail := ts[|Toks(l)| + 2..];
    assert tail[1..] == ts[|Toks(l)| + 3..];
    InList(ts);
    ListRebuilt(w, PExec(ts), PLine(ts[|Toks(l)| + 3..]), l, r, ts[|Toks(l)| + |Toks(r)| + 5..]);
  }

  lemma ListRebuilt(w: string, pl: Parsed, pr: Parsed, l: Cmd<string>, r: Cmd<string>, rest: seq<Tok>)
    requires if Small(l) then pl.Ok? && Read(w, pl.cmd) == l else pl == Err(TooManyArgs)
    requires Rebuilt(w, pr, r, rest)
    ensures Rebuilt(w, if pl.Err? then pl else if pr.Err? then pr
            else Ok(List(pl.cmd, pr.cmd), pr.rest), List(l, r), rest)
  {
  }

  lemma InList(ts: seq<Tok>)
    ensures PExec(ts).Err? ==> PLine(ts) == PExec(ts)
    ensures PExec(ts).Ok? && Head(PExec(ts).rest, ";") ==>
              var l, r := PExec(ts), PLine(PExec(ts).rest[1..]);
              PLine(ts) == if r.Err? then r else Ok(List(l.cmd, r.cmd), r.rest)
  {
    hide PExec;
  }

  lemma Halves(w: string, ts: seq<Tok>, a: seq<Piece>, c: char, b: seq<Piece>)
    requires Starts(w, ts, Block(a) + [Mark(c)] + Block(b))
    ensures Starts(w, ts, Block(a)) && |a| + |b| + 5 <= |ts| && Starts(w, ts[|a| + 3..], Block(b))
  {
    StartsParts(w, ts, Block(a) + [Mark(c)], Block(b));
    StartsParts(w, ts, Block(a), [Mark(c)]);
  }

  lemma {:induction false} LineBack(w: string, t: Cmd<string>, ts: seq<Tok>)
    requires Proper(t) && Starts(w, ts, Toks(t)) && Closed(ts[|Toks(t)|..])
    ensures Rebuilt(w, PLine(ts), t, ts[|Toks(t)|..])
    decreases t
  {
    hide Starts, Rebuilt, PLine, PExec, Closed;
    match t
    case Exec(args) => SimpleBack(w, args, ts);
    case Redir(c, f, mode, fd) =>
      StartsParts(w, ts, Block(Toks(c)), [Mark(OpMark(mode, fd)), Text(f)]);
      Inside(w, ts, Toks(c));
      LineBack(w, c, ts[1..]);
      RedirBack(w, t, ts);
    case Pipe(l, r) =>
      Halves(w, ts, Toks(l), '|', Toks(r));
      Inside(w, ts, Toks(l));
      Inside(w, ts[|Toks(l)| + 3..], Toks(r));
      LineBack(w, l, ts[1..]);
      LineBack(w, r, ts[|Toks(l)| + 3..][1..]);
      PipeBack(w, l, r, ts);
    case List(l, r) =>
      Halves(w, ts, Toks(l), ';', Toks(r));
      Inside(w, ts, Toks(l));
      Inside(w, ts[|Toks(l)| + 3..], Toks(r));
      LineBack(w, l, ts[1..]);
      LineBack(w, r, ts[|Toks(l)| + 3..][1..]);
      ListBack(w, l, r, ts);
    case Back(c) =>
      StartsParts(w, ts, Block(Toks(c)), [Mark('&')]);
      Inside(w, ts, Toks(c));
      LineBack(w, c, ts[1..]);
      BackBack(w, t, ts);
  }

  lemma SimpleBack(w: string, args: seq<string>, ts: seq<Tok>)
    requires Starts(w, ts, Texts(args)) && Closed(ts[|args|..])
    ensures Rebuilt(w, PLine(ts), Exec(args), ts[|args|..])
  {
    ExecBack(w, args, ts);
    Alone(ts);
  }

  /** Parsing the print of a tree gives the tree back exactly if no command in it has ten arguments; and otherwise
      the parser says so. */
  lemma RoundTrip(t: Cmd<string>)
    requires Proper(t)
    ensures Rebuilt(Print(t), PCmd(Lex(Print(t), 0)), t, [])
  {
    var w := Print(t);
    var ts := Lex(w, 0);
    GivesPrint(t);
    assert w[0..|w|] == w;
    assert Here(w, 0, w);
    assert Lex(w, |w|) == [];
    assert Pieces(w, ts) == Toks(t) + Pieces(w, []);
    assert Pieces(w, ts) == Toks(t);
    forall k | 0 <= k < |ts| ensures PieceOf(w, ts[k]) == Toks(t)[k] {
      assert Pieces(w, ts)[k] == Toks(t)[k];
    }
    LineBack(w, t, ts);
  }
}
