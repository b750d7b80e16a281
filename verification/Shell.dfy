/** The parser of user/sh.c, which moves a cursor along the line, and nulterminate, which cuts the line into strings. */
module Shell {
  import opened ShellSyntax

  function CharAt(w: string, i: nat): char {
    if i < |w| then w[i] else '\0'
  }

  /** The character a token begins with, if it is a symbol. */
  predicate HeadIn(ts: seq<Tok>, cs: string) {
    ts != [] && ts[0].Sym? && (if ts[0].c == '+' then '>' else ts[0].c) in cs
  }

  method SkipWhite(w: Line, ps: nat) returns (s: nat)
    requires ps <= |w|
    ensures s == Skip(w, ps)
  {
    s := ps;
    while s < |w| && White(w[s])
      invariant ps <= s <= |w| && Skip(w, ps) == Skip(w, s)
    {
      s := s + 1;
    }
  }

  /** What gettoken returns for a token. */
  function Code(t: Tok): char {
    match t case Sym(c) => c case Word(_) => 'a'
  }

  /** gettoken: the next token and its place; the cursor moves past it. */
  method GetToken(w: Line, ps: nat) returns (ret: char, q: nat, eq: nat, next: nat)
    requires ps <= |w|
    ensures next <= |w| && q <= |w| && eq <= |w|
    ensures Lex(w, ps) == [] ==> ret == '\0' && Lex(w, next) == []
    ensures Lex(w, ps) != [] ==>
              && ret == Code(Lex(w, ps)[0]) && Lex(w, next) == Lex(w, ps)[1..]
              && (Lex(w, ps)[0].Word? ==> Lex(w, ps)[0] == Word(Span(q, eq)))
              && (Lex(w, ps)[0].Sym? ==> ret != 'a' && ret != '\0')
  {
    var s := SkipWhite(w, ps);
    q := s;
    ret := CharAt(w, s);
    if s < |w| {
      OneMore(w, ps);
      if w[s] == '|' || w[s] == '(' || w[s] == ')' || w[s] == ';' || w[s] == '&' || w[s] == '<' {
        s := s + 1;
      } else if w[s] == '>' {
        s := s + 1;
        if CharAt(w, s) == '>' {
          ret := '+';
          s := s + 1;
        }
      } else {
        ret := 'a';
        while s < |w| && !White(w[s]) && !Symbol(w[s])
          invariant q <= s <= |w| && WordEnd(w, q) == WordEnd(w, s)
        {
          s := s + 1;
        }
      }
    }
    eq := s;
    next := SkipWhite(w, s);
    SkipTwice(w, s);
  }

  lemma OneMore(w: string, i: nat)
    requires i <= |w| && Skip(w, i) < |w|
    ensures var s := Skip(w, i);
            Lex(w, i) == [TokAt(w, s)] + Lex(w, TokEnd(w, s)) && Lex(w, i)[1..] == Lex(w, TokEnd(w, s))
  {
  }

  /** peek: skips white space and looks at the next character. */
  method Peek(w: Line, ps: nat, toks: string) returns (found: bool, next: nat)
    requires ps <= |w| && forall c :: c in toks ==> Symbol(c)
    ensures next <= |w| && Lex(w, next) == Lex(w, ps) && (found <==> HeadIn(Lex(w, ps), toks))
    ensures next == |w| <==> Lex(w, ps) == []
  {
    next := SkipWhite(w, ps);
    SkipTwice(w, ps);
    found := next < |w| && w[next] in toks;
    if next < |w| {
      OneMore(w, ps);
    }
  }

  datatype Result = Good(cmd: Cmd<Span>, next: nat) | Bad(error: Error)

  /** The method's result is the grammar's: the same tree, and the cursor before the tokens that are left. */
  ghost predicate Agrees(w: string, r: Result, p: Parsed) {
    match r
    case Good(c, n) => p.Ok? && p.cmd == c && n <= |w| && Lex(w, n) == p.rest
    case Bad(e) => p == Err(e)
  }

  /** parseredirs: the redirections, in order. */
  method ParseRedirs(w: Line, ps: nat) returns (error: bool, files: seq<File<Span>>, next: nat)
    requires ps <= |w|
    ensures error ==> PFiles(Lex(w, ps)) == Not(MissingFile)
    ensures !error ==> next <= |w| && PFiles(Lex(w, ps)) == Got(files, Lex(w, next))
  {
    hide Lex, PFiles, Prefixed;
    files, next := [], ps;
    ghost var all := PFiles(Lex(w, ps));
    var found;
    found, next := Peek(w, next, "<>");
    PrefixedNone(all);
    while found
      invariant next <= |w| && (found <==> Head(Lex(w, next), "<>+"))
      invariant all == Prefixed(files, PFiles(Lex(w, next)))
      decreases |Lex(w, next)|
    {
      ghost var ts := Lex(w, next);
      var tok, q, eq, x, y;
      tok, x, y, next := GetToken(w, next);
      ghost var ts1 := Lex(w, next);
      assert ts1 == ts[1..];
      var kind;
      kind, q, eq, next := GetToken(w, next);
      if kind != 'a' {
        FileMissing(ts, files);
        return true, files, next;
      }
      assert ts1[1..] == ts[2..];
      FileNext(ts, files);
      if tok == '<' {
        files := files + [File(Span(q, eq), O_RDONLY, 0)];
      } else if tok == '>' {
        files := files + [File(Span(q, eq), O_WRONLY + O_CREATE + O_TRUNC, 1)];
      } else {
        files := files + [File(Span(q, eq), O_WRONLY + O_CREATE, 1)];
      }
      found, next := Peek(w, next, "<>");
    }
    FilesEnd(Lex(w, next), files);
    error := false;
  }

  ghost function Prefixed(files: seq<File<Span>>, r: Files): Files {
    if r.Not? then r else Got(files + r.files, r.rest)
  }

  lemma PrefixedNone(r: Files)
    ensures Prefixed([], r) == r
  {
    if r.Got? {
      assert [] + r.files == r.files;
    }
  }

  lemma FilesEnd(ts: seq<Tok>, files: seq<File<Span>>)
    requires !Head(ts, "<>+")
    ensures Prefixed(files, PFiles(ts)) == Got(files, ts)
  {
    assert files + [] == files;
  }

  lemma FileMissing(ts: seq<Tok>, files: seq<File<Span>>)
    requires Head(ts, "<>+") && (|ts| < 2 || !ts[1].Word?)
    ensures Prefixed(files, PFiles(ts)) == Not(MissingFile)
  {
  }

  lemma FileNext(ts: seq<Tok>, files: seq<File<Span>>)
    requires Head(ts, "<>+") && |ts| >= 2 && ts[1].Word?
    ensures Prefixed(files, PFiles(ts)) == Prefixed(files + [FileFor(ts[0].c, ts[1].w)], PFiles(ts[2..]))
  {
    hide FileFor;
    var r, f := PFiles(ts[2..]), FileFor(ts[0].c, ts[1].w);
    if r.Got? {
      assert files + ([f] + r.files) == files + [f] + r.files;
    }
  }

  /** parseexec: a block, or arguments mixed with redirections. */
  method ParseExec(w: Line, ps: nat) returns (r: Result)
    requires ps <= |w|
    ensures Agrees(w, r, PExec(Lex(w, ps)))
    decreases |Lex(w, ps)|, 1
  {
    hide Lex, PFiles, PBlock, Wrap;
    var paren: bool, next: nat := Peek(w, ps, "(");
    if paren {
      r := ParseBlock(w, next);
      return;
    }
    var error, files;
    error, files, next := ParseRedirs(w, next);
    if error {
      return Bad(MissingFile);
    }
    var args: seq<Span> := [];
    ghost var all := PArgs([], files, Lex(w, next));
    assert all == PExec(Lex(w, ps));
    var stop;
    stop, next := Peek(w, next, "|)&;");
    while !stop
      invariant next <= |w| && all == PArgs(args, files, Lex(w, next)) && |args| < MAXARGS
      invariant stop <==> Head(Lex(w, next), "|)&;")
      decreases |Lex(w, next)|
    {
      var tok, q, eq;
      tok, q, eq, next := GetToken(w, next);
      if tok == '\0' {
        break;
      }
      if tok != 'a' {
        return Bad(Syntax);
      }
      args := args + [Span(q, eq)];
      if |args| >= MAXARGS {
        return Bad(TooManyArgs);
      }
      var more;
      error, more, next := ParseRedirs(w, next);
      if error {
        return Bad(MissingFile);
      }
      files := files + more;
      stop, next := Peek(w, next, "|)&;");
    }
    r := Good(Wrap(Exec(args), files), next);
  }

  /** parseblock, called where a parenthesis opens: its first panic cannot happen. */
  method ParseBlock(w: Line, ps: nat) returns (r: Result)
    requires ps <= |w| && Head(Lex(w, ps), "(")
    ensures Agrees(w, r, PBlock(Lex(w, ps)[1..]))
    decreases |Lex(w, ps)|, 0
  {
    var paren: bool, next: nat := Peek(w, ps, "(");
    if !paren {
      return Bad(NoBlock);
    }
    var tok, q, eq;
    tok, q, eq, next := GetToken(w, next);
    r := ParseLine(w, next);
    if r.Bad? {
      return;
    }
    var cmd := r.cmd;
    paren, next := Peek(w, r.next, ")");
    if !paren {
      return Bad(MissingParen);
    }
    tok, q, eq, next := GetToken(w, next);
    var error, files;
    error, files, next := ParseRedirs(w, next);
    if error {
      return Bad(MissingFile);
    }
    r := Good(Wrap(cmd, files), next);
  }

  method ParsePipe(w: Line, ps: nat) returns (r: Result)
    requires ps <= |w|
    ensures Agrees(w, r, PPipe(Lex(w, ps)))
    decreases |Lex(w, ps)|, 2
  {
    r := ParseExec(w, ps);
    if r.Bad? {
      return;
    }
    var left := r.cmd;
    var bar: bool, next: nat := Peek(w, r.next, "|");
    if bar {
      var tok, q, eq;
      tok, q, eq, next := GetToken(w, next);
      r := ParsePipe(w, next);
      if r.Good? {
        r := Good(Pipe(left, r.cmd), r.next);
      }
    } else {
      r := Good(left, next);
    }
  }

  method ParseLine(w: Line, ps: nat) returns (r: Result)
    requires ps <= |w|
    ensures Agrees(w, r, PLine(Lex(w, ps)))
    decreases |Lex(w, ps)|, 3
  {
    hide Lex, PPipe;
    r := ParsePipe(w, ps);
    if r.Bad? {
      return;
    }
    ghost var p := PPipe(Lex(w, ps));
    var cmd := r.cmd;
    var found: bool, next: nat := Peek(w, r.next, "&");
    while found
      invariant next <= |w| && PBacks(p.cmd, p.rest) == PBacks(cmd, Lex(w, next)) && |Lex(w, next)| <= |Lex(w, ps)|
      invariant found <==> Head(Lex(w, next), "&")
      decreases |Lex(w, next)|
    {
      var tok, q, eq;
      tok, q, eq, next := GetToken(w, next);
      cmd := Back(cmd);
      found, next := Peek(w, next, "&");
    }
    found, next := Peek(w, next, ";");
    if found {
      var tok, q, eq;
      tok, q, eq, next := GetToken(w, next);
      r := ParseLine(w, next);
      if r.Good? {
        r := Good(List(cmd, r.cmd), r.next);
      }
    } else {
      r := Good(cmd, next);
    }
  }

  // ---- nulterminate ----

  /** A word of the tree ends at `k`. */
  ghost predicate EndsAt(c: Cmd<Span>, k: int) {
    exists s :: s in Words(c) && s.eq == k
  }

  ghost predicate InBounds(c: Cmd<Span>, n: nat) {
    forall s :: s in Words(c) ==> s.eq < n
  }

  /** Writes a NUL behind every word of the tree, and nothing else. */
  method NulTerminate(c: Cmd<Span>, buf: array<char>)
    requires InBounds(c, buf.Length)
    modifies buf
    ensures forall k :: 0 <= k < buf.Length ==> buf[k] == if EndsAt(c, k) then '\0' else old(buf[k])
    decreases c
  {
    match c
    case Exec(args) => EndArgs(c, buf);
    case Redir(d, f, _, _) =>
      assert f in Words(c) && forall s :: s in Words(c) <==> s in Words(d) || s == f;
      NulTerminate(d, buf);
      buf[f.eq] := '\0';
      assert forall k :: EndsAt(c, k) <==> EndsAt(d, k) || k == f.eq;
    case Pipe(l, r) =>
      NulTerminate(l, buf);
      NulTerminate(r, buf);
      assert forall k :: EndsAt(c, k) <==> EndsAt(l, k) || EndsAt(r, k);
    case List(l, r) =>
      NulTerminate(l, buf);
      NulTerminate(r, buf);
      assert forall k :: EndsAt(c, k) <==> EndsAt(l, k) || EndsAt(r, k);
    case Back(d) =>
      NulTerminate(d, buf);
      assert forall k :: EndsAt(c, k) <==> EndsAt(d, k);
  }

  method EndArgs(c: Cmd<Span>, buf: array<char>)
    requires c.Exec? && InBounds(c, buf.Length)
    modifies buf
    ensures forall k :: 0 <= k < buf.Length ==> buf[k] == if EndsAt(c, k) then '\0' else old(buf[k])
  {
    var args := c.args;
    var i := 0;
    while i < |args|
      invariant 0 <= i <= |args|
      invariant forall k :: 0 <= k < buf.Length ==> buf[k] == if EndsAmong(args, i, k) then '\0' else old(buf[k])
    {
      assert args[i] in Words(c);
      buf[args[i].eq] := '\0';
      i := i + 1;
    }
    forall k ensures EndsAmong(args, |args|, k) <==> EndsAt(c, k) {
      if EndsAt(c, k) {
        var s :| s in Words(c) && s.eq == k;
        assert s in args;
      }
      if EndsAmong(args, |args|, k) {
        var j :| 0 <= j < |args| && args[j].eq == k;
        assert args[j] in Words(c);
      }
    }
  }

  ghost predicate EndsAmong(args: seq<Span>, n: nat, k: int)
    requires n <= |args|
  {
    exists j :: 0 <= j < n && args[j].eq == k
  }

  /** The string that begins at `q`: up to the first NUL. */
  function StringAt(buf: seq<char>, q: nat): string
    requires q <= |buf|
    decreases |buf| - q
  {
    if q == |buf| || buf[q] == '\0' then "" else [buf[q]] + StringAt(buf, q + 1)
  }

  lemma {:induction false} StringUpTo(buf: seq<char>, q: nat, eq: nat)
    requires q <= eq < |buf| && buf[eq] == '\0' && forall k :: q <= k < eq ==> buf[k] != '\0'
    ensures StringAt(buf, q) == buf[q..eq]
    decreases eq - q
  {
    if q < eq {
      StringUpTo(buf, q + 1, eq);
      assert buf[q..eq] == [buf[q]] + buf[q + 1..eq];
    }
  }

  /** No word is cut by the end of another. */
  lemma WordsWhole(w: Line, c: Cmd<Span>, s: Span, k: nat)
    requires (forall x :: x in Words(c) ==> IsWord(w, x)) && IsWord(w, s) && s.q <= k < s.eq
    ensures !EndsAt(c, k)
  {
  }

  /** Once the words of the tree have their NULs, each reads as its token. */
  lemma Cut(w: Line, c: Cmd<Span>, buf: seq<char>, s: Span)
    requires (forall x :: x in Words(c) ==> IsWord(w, x)) && s in Words(c) && |buf| == |w| + 1
    requires forall k :: 0 <= k < |w| && !EndsAt(c, k) ==> buf[k] == w[k]
    requires forall k :: 0 <= k < |buf| && EndsAt(c, k) ==> buf[k] == '\0'
    ensures s.q <= s.eq <= |w| && StringAt(buf, s.q) == w[s.q..s.eq]
  {
    hide Words;
    assert IsWord(w, s) && EndsAt(c, s.eq);
    forall k | s.q <= k < s.eq ensures buf[k] == w[k] && buf[k] != '\0' {
      WordsWhole(w, c, s, k);
      assert w[k] in w;
    }
    StringUpTo(buf, s.q, s.eq);
    assert buf[s.q..s.eq] == w[s.q..s.eq];
  }

  /** parsecmd: either the line is refused as the grammar says, and stays as it is; or it is cut into strings so that
      each word of the line, and so each argument and file name of the tree, is exactly its token. */
  method ParseCmd(w: Line, buf: array<char>) returns (r: Result)
    requires buf.Length == |w| + 1 && buf[..|w|] == w && buf[|w|] == '\0'
    modifies buf
    ensures match PCmd(Lex(w, 0))
            case Ok(c, _) =>
              && r.Good? && r.cmd == c && Words(c) == WordsOf(Lex(w, 0))
              && forall s :: s in Words(c) ==> s.q <= s.eq <= |w| && StringAt(buf[..], s.q) == w[s.q..s.eq]
            case Err(e) => r == Bad(e) && buf[..] == old(buf[..])
  {
    hide Lex, PLine, Words, StringAt;
    r := ParseLine(w, 0);
    if r.Bad? {
      return;
    }
    var x: bool, next: nat := Peek(w, r.next, "");
    if next != |w| {
      return Bad(Leftovers);
    }
    ghost var c := r.cmd;
    CmdWords(w);
    assert forall s :: s in Words(c) ==> IsWord(w, s);
    NulTerminate(r.cmd, buf);
    assert forall k :: 0 <= k < |w| ==> old(buf[..|w|])[k] == w[k];
    forall s | s in Words(c) ensures s.q <= s.eq <= |w| && StringAt(buf[..], s.q) == w[s.q..s.eq] {
      Cut(w, c, buf[..], s);
    }
  }
}
