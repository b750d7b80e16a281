/** The command lines of user/sh.c: tokens, command trees, and the grammar that the parser follows. */
module ShellSyntax {

  const MAXARGS := 10
  const O_RDONLY := 0x000
  const O_WRONLY := 0x001
  const O_CREATE := 0x200
  const O_TRUNC := 0x400

  /** A line before its NUL. */
  type Line = s: string | '\0' !in s witness ""

  predicate White(c: char) {
    c == ' ' || c == '\t' || c == '\r' || c == '\n' || c == '\U{000B}'
  }

  predicate Symbol(c: char) {
    c == '<' || c == '|' || c == '>' || c == '&' || c == ';' || c == '(' || c == ')'
  }

  predicate Plain(c: char) {
    !White(c) && !Symbol(c) && c != '\0'
  }

  // ---- Tokens ----

  /** The characters from `q` up to `eq`. */
  datatype Span = Span(q: nat, eq: nat)

  /** Sym('+') is ">>". */
  datatype Tok = Sym(c: char) | Word(w: Span)

  function Skip(w: string, i: nat): (j: nat)
    requires i <= |w|
    ensures i <= j <= |w| && (j < |w| ==> !White(w[j])) && forall k :: i <= k < j ==> White(w[k])
    decreases |w| - i
  {
    if i < |w| && White(w[i]) then Skip(w, i + 1) else i
  }

  function WordEnd(w: string, i: nat): (j: nat)
    requires i <= |w|
    ensures i <= j <= |w| && (j < |w| ==> White(w[j]) || Symbol(w[j]))
    ensures forall k :: i <= k < j ==> !White(w[k]) && !Symbol(w[k])
    decreases |w| - i
  {
    if i < |w| && !White(w[i]) && !Symbol(w[i]) then WordEnd(w, i + 1) else i
  }

  /** The end of the token at `i`. */
  function TokEnd(w: string, i: nat): (j: nat)
    requires i < |w| && !White(w[i])
    ensures i < j <= |w|
  {
    if w[i] == '>' && i + 1 < |w| && w[i + 1] == '>' then i + 2
    else if Symbol(w[i]) then i + 1
    else WordEnd(w, i)
  }

  function TokAt(w: string, i: nat): (t: Tok)
    requires i < |w| && !White(w[i])
  {
    if w[i] == '>' && i + 1 < |w| && w[i + 1] == '>' then Sym('+')
    else if Symbol(w[i]) then Sym(w[i])
    else Word(Span(i, WordEnd(w, i)))
  }

  function Lex(w: string, i: nat): (ts: seq<Tok>)
    requires i <= |w|
    decreases |w| - i
  {
    var s := Skip(w, i);
    if s == |w| then [] else [TokAt(w, s)] + Lex(w, TokEnd(w, s))
  }

  lemma {:induction false} SkipTwice(w: string, i: nat)
    requires i <= |w|
    ensures Skip(w, Skip(w, i)) == Skip(w, i) && Lex(w, Skip(w, i)) == Lex(w, i)
  {
  }

  /** A maximal run of plain characters. */
  ghost predicate IsWord(w: string, s: Span) {
    && s.q < s.eq <= |w| && (forall k :: s.q <= k < s.eq ==> !White(w[k]) && !Symbol(w[k]))
    && (s.eq < |w| ==> White(w[s.eq]) || Symbol(w[s.eq]))
  }

  lemma {:induction false} LexWords(w: string, i: nat)
    requires i <= |w|
    ensures forall t :: t in Lex(w, i) && t.Word? ==> IsWord(w, t.w)
    decreases |w| - i
  {
    var s := Skip(w, i);
    if s < |w| {
      LexWords(w, TokEnd(w, s));
    }
  }

  // ---- Command trees ----

  /** Words of type `W`: places in the line, or strings. */
  datatype Cmd<W> =
    | Exec(args: seq<W>)
    | Redir(cmd: Cmd<W>, file: W, mode: int, fd: int)
    | Pipe(left: Cmd<W>, right: Cmd<W>)
    | List(left: Cmd<W>, right: Cmd<W>)
    | Back(cmd: Cmd<W>)

  datatype File<W> = File(file: W, mode: int, fd: int)

  /** The first redirection is innermost. */
  function Wrap<W>(c: Cmd<W>, files: seq<File<W>>): Cmd<W>
    decreases |files|
  {
    if files == [] then c else
      var f := files[|files| - 1];
      Redir(Wrap(c, files[..|files| - 1]), f.file, f.mode, f.fd)
  }

  function FileFor(op: char, s: Span): File<Span> {
    if op == '<' then File(s, O_RDONLY, 0)
    else if op == '>' then File(s, O_WRONLY + O_CREATE + O_TRUNC, 1)
    else File(s, O_WRONLY + O_CREATE, 1)
  }

  // ---- The grammar ----

  datatype Error = MissingFile | NoBlock | MissingParen | Syntax | TooManyArgs | Leftovers

  datatype Parsed = Ok(cmd: Cmd<Span>, rest: seq<Tok>) | Err(error: Error)

  datatype Files = Got(files: seq<File<Span>>, rest: seq<Tok>) | Not(error: Error)

  predicate Head(ts: seq<Tok>, cs: string) {
    ts != [] && ts[0].Sym? && ts[0].c in cs
  }

  function PFiles(ts: seq<Tok>): (r: Files)
    ensures r.Got? ==> |r.rest| <= |ts| && !Head(r.rest, "<>+")
    decreases |ts|
  {
    if !Head(ts, "<>+") then Got([], ts)
    else if |ts| < 2 || !ts[1].Word? then Not(MissingFile)
    else
      var r := PFiles(ts[2..]);
      if r.Not? then r else Got([FileFor(ts[0].c, ts[1].w)] + r.files, r.rest)
  }

  /** Arguments and redirections, mixed, up to a separator. */
  function PArgs(args: seq<Span>, files: seq<File<Span>>, ts: seq<Tok>): (r: Parsed)
    ensures r.Ok? ==> |r.rest| <= |ts|
    decreases |ts|
  {
    if ts == [] || Head(ts, "|)&;") then Ok(Wrap(Exec(args), files), ts)
    else if !ts[0].Word? then Err(Syntax)
    else if |args| + 1 >= MAXARGS then Err(TooManyArgs)
    else
      var r := PFiles(ts[1..]);
      if r.Not? then Err(r.error) else PArgs(args + [ts[0].w], files + r.files, r.rest)
  }

  function PExec(ts: seq<Tok>): (r: Parsed)
    ensures r.Ok? ==> |r.rest| <= |ts|
    decreases |ts|, 1
  {
    if Head(ts, "(") then PBlock(ts[1..])
    else
      var r := PFiles(ts);
      if r.Not? then Err(r.error) else PArgs([], r.files, r.rest)
  }

  /** A line, a closing parenthesis and redirections. */
  function PBlock(ts: seq<Tok>): (r: Parsed)
    ensures r.Ok? ==> |r.rest| <= |ts|
    decreases |ts|, 4
  {
    var b := PLine(ts);
    if b.Err? then b
    else if !Head(b.rest, ")") then Err(MissingParen)
    else
      var r := PFiles(b.rest[1..]);
      if r.Not? then Err(r.error) else Ok(Wrap(b.cmd, r.files), r.rest)
  }

  function PPipe(ts: seq<Tok>): (r: Parsed)
    ensures r.Ok? ==> |r.rest| <= |ts|
    decreases |ts|, 2
  {
    var l := PExec(ts);
    if l.Err? || !Head(l.rest, "|") then l
    else
      var r := PPipe(l.rest[1..]);
      if r.Err? then r else Ok(Pipe(l.cmd, r.cmd), r.rest)
  }

  function PBacks(c: Cmd<Span>, ts: seq<Tok>): (r: Parsed)
    ensures r.Ok? && |r.rest| <= |ts| && !Head(r.rest, "&")
    decreases |ts|
  {
    if Head(ts, "&") then PBacks(Back(c), ts[1..]) else Ok(c, ts)
  }

  function PLine(ts: seq<Tok>): (r: Parsed)
    ensures r.Ok? ==> |r.rest| <= |ts|
    decreases |ts|, 3
  {
    var p := PPipe(ts);
    if p.Err? then p
    else
      var l := PBacks(p.cmd, p.rest);
      if !Head(l.rest, ";") then l
      else
        var r := PLine(l.rest[1..]);
        if r.Err? then r else Ok(List(l.cmd, r.cmd), r.rest)
  }

  function PCmd(ts: seq<Tok>): (r: Parsed) {
    var r := PLine(ts);
    if r.Ok? && r.rest != [] then Err(Leftovers) else r
  }

  // ---- Every word ends up in exactly one place ----

  ghost function Words(c: Cmd<Span>): multiset<Span> {
    match c
    case Exec(args) => multiset(args)
    case Redir(d, f, _, _) => Words(d) + multiset{f}
    case Pipe(l, r) => Words(l) + Words(r)
    case List(l, r) => Words(l) + Words(r)
    case Back(d) => Words(d)
  }

  ghost function WordsOf(ts: seq<Tok>): multiset<Span> {
    if ts == [] then multiset{}
    else WordsOf(ts[1..]) + if ts[0].Word? then multiset{ts[0].w} else multiset{}
  }

  ghost function FileWords(files: seq<File<Span>>): multiset<Span> {
    if files == [] then multiset{} else multiset{files[0].file} + FileWords(files[1..])
  }

  lemma {:induction false} FileWordsConcat(a: seq<File<Span>>, b: seq<File<Span>>)
    ensures FileWords(a + b) == FileWords(a) + FileWords(b)
    decreases |a|
  {
    hide FileWords;
    if a == [] {
      assert a + b == b;
      NoFileWords();
    } else {
      FileWordsConcat(a[1..], b);
      FileWordsFirst(a[0], a[1..] + b);
      FileWordsFirst(a[0], a[1..]);
      assert a + b == [a[0]] + (a[1..] + b) && a == [a[0]] + a[1..];
    }
  }

  lemma NoFileWords()
    ensures FileWords([]) == multiset{}
  {
  }

  lemma FileWordsFirst(f: File<Span>, a: seq<File<Span>>)
    ensures FileWords([f] + a) == multiset{f.file} + FileWords(a)
  {
    assert ([f] + a)[1..] == a;
  }

  lemma {:induction false} WrapWords(c: Cmd<Span>, files: seq<File<Span>>)
    ensures Words(Wrap(c, files)) == Words(c) + FileWords(files)
    decreases |files|
  {
    if files != [] {
      var n := |files| - 1;
      WrapWords(c, files[..n]);
      FileWordsConcat(files[..n], [files[n]]);
      assert files == files[..n] + [files[n]];
      assert [files[n]][1..] == [];
    }
  }

  lemma {:induction false} FilesKeepWords(ts: seq<Tok>)
    requires PFiles(ts).Got?
    ensures FileWords(PFiles(ts).files) + WordsOf(PFiles(ts).rest) == WordsOf(ts)
    decreases |ts|
  {
    if Head(ts, "<>+") {
      FilesKeepWords(ts[2..]);
      var f := FileFor(ts[0].c, ts[1].w);
      FileWordsConcat([f], PFiles(ts[2..]).files);
      assert [f][1..] == [] && FileWords([f]) == multiset{f.file};
      assert ts[1..][1..] == ts[2..] && WordsOf(ts[1..]) == WordsOf(ts[2..]) + multiset{ts[1].w};
    }
  }

  lemma {:induction false} ArgsKeepWords(args: seq<Span>, files: seq<File<Span>>, ts: seq<Tok>)
    requires PArgs(args, files, ts).Ok?
    ensures var r := PArgs(args, files, ts);
            Words(r.cmd) + WordsOf(r.rest) == multiset(args) + FileWords(files) + WordsOf(ts)
    decreases |ts|
  {
    if ts == [] || Head(ts, "|)&;") {
      WrapWords(Exec(args), files);
    } else {
      var r := PFiles(ts[1..]);
      FilesKeepWords(ts[1..]);
      FileWordsConcat(files, r.files);
      ArgsKeepWords(args + [ts[0].w], files + r.files, r.rest);
    }
  }

  lemma {:induction false} ExecKeepsWords(ts: seq<Tok>)
    requires PExec(ts).Ok?
    ensures Words(PExec(ts).cmd) + WordsOf(PExec(ts).rest) == WordsOf(ts)
    decreases |ts|, 1
  {
    if Head(ts, "(") {
      var b := PLine(ts[1..]);
      LineKeepsWords(ts[1..]);
      FilesKeepWords(b.rest[1..]);
      WrapWords(b.cmd, PFiles(b.rest[1..]).files);
    } else {
      FilesKeepWords(ts);
      ArgsKeepWords([], PFiles(ts).files, PFiles(ts).rest);
    }
  }

  lemma {:induction false} PipeKeepsWords(ts: seq<Tok>)
    requires PPipe(ts).Ok?
    ensures Words(PPipe(ts).cmd) + WordsOf(PPipe(ts).rest) == WordsOf(ts)
    decreases |ts|, 2
  {
    ExecKeepsWords(ts);
    var l := PExec(ts);
    if Head(l.rest, "|") {
      PipeKeepsWords(l.rest[1..]);
    }
  }

  lemma {:induction false} BacksKeepWords(c: Cmd<Span>, ts: seq<Tok>)
    ensures Words(PBacks(c, ts).cmd) + WordsOf(PBacks(c, ts).rest) == Words(c) + WordsOf(ts)
    decreases |ts|
  {
    if Head(ts, "&") {
      BacksKeepWords(Back(c), ts[1..]);
    }
  }

  /** The words of a line are those of its command tree and those left over, each as often. */
  lemma {:induction false} LineKeepsWords(ts: seq<Tok>)
    requires PLine(ts).Ok?
    ensures Words(PLine(ts).cmd) + WordsOf(PLine(ts).rest) == WordsOf(ts)
    decreases |ts|, 3
  {
    PipeKeepsWords(ts);
    var p := PPipe(ts);
    BacksKeepWords(p.cmd, p.rest);
    var l := PBacks(p.cmd, p.rest);
    if Head(l.rest, ";") {
      LineKeepsWords(l.rest[1..]);
    }
  }

  lemma {:induction false} WordsAreTokens(ts: seq<Tok>, s: Span)
    ensures s in WordsOf(ts) <==> Word(s) in ts
  {
    if ts != [] {
      WordsAreTokens(ts[1..], s);
      assert Word(s) in ts <==> Word(s) == ts[0] || Word(s) in ts[1..];
    }
  }

  /** The words of the command tree of a line are exactly the words of the line. */
  lemma CmdWords(w: string)
    requires PCmd(Lex(w, 0)).Ok?
    ensures Words(PCmd(Lex(w, 0)).cmd) == WordsOf(Lex(w, 0))
    ensures forall s :: s in Words(PCmd(Lex(w, 0)).cmd) ==> IsWord(w, s)
  {
    var ts := Lex(w, 0);
    LineKeepsWords(ts);
    LexWords(w, 0);
    forall s | s in Words(PCmd(ts).cmd) ensures IsWord(w, s) {
      WordsAreTokens(ts, s);
      assert Word(s) in ts;
    }
  }

  /** Which characters separate, which are symbols, and which make words. */
  lemma CharClasses(c: char)
    ensures Lex([c], 0) ==
            if c in " \t\r\n\U{000B}" then [] else if c in "<|>&;()" then [Sym(c)] else [Word(Span(0, 1))]
  {
    var w := [c];
    if White(c) {
      assert Skip(w, 0) == 1;
    } else {
      assert Skip(w, 0) == 0 && TokEnd(w, 0) == 1 && Lex(w, 1) == [];
    }
  }
}
