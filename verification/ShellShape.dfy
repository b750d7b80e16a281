/** The trees of command lines without parentheses: what user/sh.c makes of arguments, redirections, pipes, `;`
    and `&`. */
module ShellShape {
  import opened ShellSyntax

  // ---- Arguments and redirections in any order ----

  /** What a simple command is made of. */
  datatype Part = Arg(w: Span) | Into(op: char, w: Span)

  function PartToks(parts: seq<Part>): (ts: seq<Tok>) {
    if parts == [] then [] else
      (match parts[0] case Arg(w) => [Word(w)] case Into(op, w) => [Sym(op), Word(w)]) + PartToks(parts[1..])
  }

  function ArgsOf(parts: seq<Part>): (r: seq<Span>) {
    if parts == [] then [] else (if parts[0].Arg? then [parts[0].w] else []) + ArgsOf(parts[1..])
  }

  function FilesOf(parts: seq<Part>): (r: seq<File<Span>>) {
    if parts == [] then [] else
      (if parts[0].Into? then [FileFor(parts[0].op, parts[0].w)] else []) + FilesOf(parts[1..])
  }

  predicate Redirections(parts: seq<Part>) {
    forall i :: 0 <= i < |parts| && parts[i].Into? ==> parts[i].op in "<>+"
  }

  /** Nothing more of a simple command follows. */
  predicate Ended(rest: seq<Tok>) {
    rest == [] || Head(rest, "|)&;")
  }

  /** The command inside all redirections. */
  function Core<W>(c: Cmd<W>): Cmd<W> {
    if c.Redir? then Core(c.cmd) else c
  }

  /** The redirections around it, the innermost first. */
  function Layers<W>(c: Cmd<W>): seq<File<W>> {
    if c.Redir? then Layers(c.cmd) + [File(c.file, c.mode, c.fd)] else []
  }

  lemma {:induction false} WrapLayers<W>(c: Cmd<W>, files: seq<File<W>>)
    requires !c.Redir?
    ensures Core(Wrap(c, files)) == c && Layers(Wrap(c, files)) == files
    decreases |files|
  {
    if files != [] {
      WrapLayers(c, files[..|files| - 1]);
    }
  }

  /** The redirections at the front. */
  function Leading(parts: seq<Part>): (k: nat)
    ensures k <= |parts| && (k < |parts| ==> parts[k].Arg?) && forall i :: 0 <= i < k ==> parts[i].Into?
  {
    if parts == [] || parts[0].Arg? then 0 else 1 + Leading(parts[1..])
  }

  lemma {:induction false} FirstPart(parts: seq<Part>, rest: seq<Tok>)
    requires parts != []
    ensures var ts, more := PartToks(parts) + rest, PartToks(parts[1..]) + rest;
            match parts[0]
            case Arg(w) => |ts| > 0 && ts[0] == Word(w) && ts[1..] == more
            case Into(op, w) => |ts| > 1 && ts[0] == Sym(op) && ts[1] == Word(w) && ts[2..] == more
  {
    hide PartToks;
    var more := PartToks(parts[1..]);
    PartFront(parts);
    match parts[0]
    case Arg(w) => Drop1(Word(w), more, rest);
    case Into(op, w) => Drop2(Sym(op), Word(w), more, rest);
  }

  lemma {:induction false} PartFront(parts: seq<Part>)
    requires parts != []
    ensures PartToks(parts) ==
            (match parts[0] case Arg(w) => [Word(w)] case Into(op, w) => [Sym(op), Word(w)]) + PartToks(parts[1..])
  {
  }

  lemma Drop1<T>(x: T, a: seq<T>, b: seq<T>)
    ensures [x] + a + b == [x] + (a + b)
  {
  }

  lemma Drop2<T>(x: T, y: T, a: seq<T>, b: seq<T>)
    ensures [x, y] + a + b == [x, y] + (a + b)
  {
  }

  lemma {:induction false} FilesCons(parts: seq<Part>, k: nat)
    requires 0 < k <= |parts|
    ensures FilesOf(parts[..k])
            == (if parts[0].Into? then [FileFor(parts[0].op, parts[0].w)] else []) + FilesOf(parts[1..][..k - 1])
    ensures parts[k..] == parts[1..][k - 1..]
  {
    assert parts[..k][1..] == parts[1..][..k - 1];
  }

  lemma {:induction false} FilesSplit(parts: seq<Part>, k: nat)
    requires k <= |parts|
    ensures FilesOf(parts[..k]) + FilesOf(parts[k..]) == FilesOf(parts)
    decreases |parts|
  {
    if k == 0 {
      assert parts[..0] == [] && parts[0..] == parts;
    } else {
      FilesCons(parts, k);
      FilesSplit(parts[1..], k - 1);
    }
  }

  lemma {:induction false} ArgsAfter(parts: seq<Part>, k: nat)
    requires k <= |parts| && forall i :: 0 <= i < k ==> parts[i].Into?
    ensures ArgsOf(parts[k..]) == ArgsOf(parts)
    decreases |parts|
  {
    if k == 0 {
      assert parts[0..] == parts;
    } else {
      assert parts[k..] == parts[1..][k - 1..];
      ArgsAfter(parts[1..], k - 1);
    }
  }

  lemma {:induction false} FilesFirst(parts: seq<Part>, rest: seq<Tok>)
    requires Redirections(parts) && Ended(rest)
    ensures PFiles(PartToks(parts) + rest)
            == Got(FilesOf(parts[..Leading(parts)]), PartToks(parts[Leading(parts)..]) + rest)
    decreases |parts|
  {
    hide PartToks, FilesOf;
    if parts == [] {
      NoParts(rest);
    } else {
      FirstPart(parts, rest);
      if parts[0].Arg? {
        NoParts(rest);
        assert parts[0..] == parts && parts[..0] == [];
      } else {
        FilesFirst(parts[1..], rest);
        FilesCons(parts, Leading(parts));
      }
    }
  }

  lemma NoParts(rest: seq<Tok>)
    ensures PartToks([]) + rest == rest && FilesOf([]) == [] && ArgsOf([]) == []
  {
  }

  lemma Associate<T>(a: seq<T>, x: T, b: seq<T>)
    ensures a + [x] + b == a + ([x] + b)
  {
  }

  /** A word of a simple command, and the redirections behind it. */
  lemma {:induction false} OneArg(args: seq<Span>, files: seq<File<Span>>, parts: seq<Part>, rest: seq<Tok>)
    requires Redirections(parts) && Ended(rest) && parts != [] && parts[0].Arg? && |args| < MAXARGS
    ensures var more := parts[1..];
            var k := Leading(more);
            PArgs(args, files, PartToks(parts) + rest) ==
            if |args| + 1 >= MAXARGS then Err(TooManyArgs)
            else PArgs(args + [parts[0].w], files + FilesOf(more[..k]), PartToks(more[k..]) + rest)
  {
    hide PartToks, FilesOf;
    FirstPart(parts, rest);
    FilesFirst(parts[1..], rest);
  }

  lemma {:induction false} ArgsCons(args: seq<Span>, files: seq<File<Span>>, parts: seq<Part>, k: nat)
    requires parts != [] && parts[0].Arg? && k == Leading(parts[1..])
    ensures args + [parts[0].w] + ArgsOf(parts[1..][k..]) == args + ArgsOf(parts)
    ensures files + FilesOf(parts[1..][..k]) + FilesOf(parts[1..][k..]) == files + FilesOf(parts)
    ensures |ArgsOf(parts)| == 1 + |ArgsOf(parts[1..][k..])|
  {
    hide ArgsOf, FilesOf;
    ArgsAfter(parts[1..], k);
    FilesSplit(parts[1..], k);
    ArgFront(parts);
    Associate(args, parts[0].w, ArgsOf(parts[1..]));
    Regroup3(files, FilesOf(parts[1..][..k]), FilesOf(parts[1..][k..]));
  }

  lemma {:induction false} ArgFront(parts: seq<Part>)
    requires parts != [] && parts[0].Arg?
    ensures ArgsOf(parts) == [parts[0].w] + ArgsOf(parts[1..]) && FilesOf(parts) == FilesOf(parts[1..])
  {
  }

  lemma Regroup3<T>(a: seq<T>, b: seq<T>, c: seq<T>)
    ensures a + b + c == a + (b + c)
  {
  }

  lemma {:induction false} ArgsThen(args: seq<Span>, files: seq<File<Span>>, parts: seq<Part>, rest: seq<Tok>)
    requires Redirections(parts) && Ended(rest) && (parts == [] || parts[0].Arg?) && |args| < MAXARGS
    ensures PArgs(args, files, PartToks(parts) + rest) ==
            if |args| + |ArgsOf(parts)| < MAXARGS
            then Ok(Wrap(Exec(args + ArgsOf(parts)), files + FilesOf(parts)), rest)
            else Err(TooManyArgs)
    decreases |parts|
  {
    if parts == [] {
      NoParts(rest);
      assert args + [] == args && files + [] == files;
    } else {
      hide PartToks, FilesOf, PArgs, ArgsOf;
      var more := parts[1..];
      var k := Leading(more);
      OneArg(args, files, parts, rest);
      ArgsCons(args, files, parts, k);
      if |args| + 1 < MAXARGS {
        ArgsThen(args + [parts[0].w], files + FilesOf(more[..k]), more[k..], rest);
      }
    }
  }

  /** The tree of a simple command. */
  function SimpleTree(parts: seq<Part>): Cmd<Span> {
    Wrap(Exec(ArgsOf(parts)), FilesOf(parts))
  }

  lemma {:induction false} SimpleParsed(parts: seq<Part>, rest: seq<Tok>)
    requires Redirections(parts) && Ended(rest)
    ensures PExec(PartToks(parts) + rest) ==
            if |ArgsOf(parts)| < MAXARGS then Ok(SimpleTree(parts), rest) else Err(TooManyArgs)
  {
    hide PartToks, FilesOf, PArgs, ArgsOf;
    var k := Leading(parts);
    FilesFirst(parts, rest);
    if parts == [] {
      NoParts(rest);
    } else {
      FirstPart(parts, rest);
    }
    ArgsThen([], FilesOf(parts[..k]), parts[k..], rest);
    ArgsAfter(parts, k);
    FilesSplit(parts, k);
    assert [] + ArgsOf(parts) == ArgsOf(parts);
  }

  /** However arguments and redirections are mixed: the tree of a simple command has its arguments in order in the
      middle, and its redirections around them, the first one written innermost. It fails only with too many
      arguments. */
  lemma {:induction false} MixedCommand(parts: seq<Part>, rest: seq<Tok>)
    requires Redirections(parts) && Ended(rest)
    ensures var r := PExec(PartToks(parts) + rest);
            if |ArgsOf(parts)| < MAXARGS
            then r.Ok? && r.rest == rest && Core(r.cmd) == Exec(ArgsOf(parts)) && Layers(r.cmd) == FilesOf(parts)
            else r == Err(TooManyArgs)
  {
    SimpleParsed(parts, rest);
    WrapLayers(Exec(ArgsOf(parts)), FilesOf(parts));
  }

  // ---- Pipes ----

  predicate Fits(parts: seq<Part>) {
    Redirections(parts) && |ArgsOf(parts)| < MAXARGS
  }

  function PipeToks(cmds: seq<seq<Part>>): (ts: seq<Tok>)
    requires cmds != []
    decreases |cmds|
  {
    if |cmds| == 1 then PartToks(cmds[0]) else PartToks(cmds[0]) + ([Sym('|')] + PipeToks(cmds[1..]))
  }

  /** A pipe leads from the first command into all the others. */
  function PipeTree(cmds: seq<seq<Part>>): (c: Cmd<Span>)
    requires cmds != []
    decreases |cmds|
  {
    if |cmds| == 1 then SimpleTree(cmds[0]) else Pipe(SimpleTree(cmds[0]), PipeTree(cmds[1..]))
  }

  /** A pipeline ends here. */
  predicate PipeEnded(rest: seq<Tok>) {
    rest == [] || Head(rest, ")&;")
  }

  lemma {:induction false} PipeParsed(cmds: seq<seq<Part>>, rest: seq<Tok>)
    requires cmds != [] && (forall i :: 0 <= i < |cmds| ==> Fits(cmds[i])) && PipeEnded(rest)
    ensures PPipe(PipeToks(cmds) + rest) == Ok(PipeTree(cmds), rest)
    decreases |cmds|
  {
    hide PExec, PartToks, SimpleTree, Redirections, ArgsOf;
    if |cmds| == 1 {
      SimpleParsed(cmds[0], rest);
    } else {
      var more := PipeToks(cmds[1..]);
      PipeParsed(cmds[1..], rest);
      SimpleParsed(cmds[0], [Sym('|')] + (more + rest));
      Joined(PartToks(cmds[0]), Sym('|'), more, rest);
    }
  }

  lemma Joined<T>(a: seq<T>, x: T, b: seq<T>, c: seq<T>)
    ensures a + ([x] + b) + c == a + ([x] + (b + c)) && ([x] + (b + c))[0] == x && ([x] + (b + c))[1..] == b + c
  {
  }

  // ---- Lines ----

  /** A pipeline and the number of `&` behind it. */
  datatype Job = Job(cmds: seq<seq<Part>>, backs: nat)

  function Amps(n: nat): (ts: seq<Tok>)
    ensures |ts| == n
  {
    if n == 0 then [] else [Sym('&')] + Amps(n - 1)
  }

  function Backed(c: Cmd<Span>, n: nat): Cmd<Span>
    decreases n
  {
    if n == 0 then c else Backed(Back(c), n - 1)
  }

  function JobToks(j: Job): seq<Tok>
    requires j.cmds != []
  {
    PipeToks(j.cmds) + Amps(j.backs)
  }

  function JobTree(j: Job): Cmd<Span>
    requires j.cmds != []
  {
    Backed(PipeTree(j.cmds), j.backs)
  }

  predicate JobFits(j: Job) {
    j.cmds != [] && forall i :: 0 <= i < |j.cmds| ==> Fits(j.cmds[i])
  }

  predicate AllFit(jobs: seq<Job>) {
    forall i :: 0 <= i < |jobs| ==> JobFits(jobs[i])
  }

  function LineToks(jobs: seq<Job>): (ts: seq<Tok>)
    requires jobs != [] && AllFit(jobs)
    decreases |jobs|
  {
    if |jobs| == 1 then JobToks(jobs[0]) else JobToks(jobs[0]) + ([Sym(';')] + LineToks(jobs[1..]))
  }

  /** First the first job, then the rest of the line. */
  function LineTree(jobs: seq<Job>): (c: Cmd<Span>)
    requires jobs != [] && AllFit(jobs)
    decreases |jobs|
  {
    if |jobs| == 1 then JobTree(jobs[0]) else List(JobTree(jobs[0]), LineTree(jobs[1..]))
  }

  lemma {:induction false} AmpsParsed(c: Cmd<Span>, n: nat, rest: seq<Tok>)
    requires !Head(rest, "&")
    ensures PBacks(c, Amps(n) + rest) == Ok(Backed(c, n), rest)
    decreases n
  {
    var ts := Amps(n) + rest;
    if n == 0 {
      assert ts == rest;
    } else {
      assert ts[0] == Sym('&') && ts[1..] == Amps(n - 1) + rest;
      AmpsParsed(Back(c), n - 1, rest);
    }
  }

  lemma AmpsEnd(n: nat, rest: seq<Tok>)
    requires rest == [] || Head(rest, ");")
    ensures PipeEnded(Amps(n) + rest) && !Head(rest, "&")
  {
    if n > 0 {
      assert (Amps(n) + rest)[0] == Sym('&');
    } else {
      assert Amps(n) + rest == rest;
    }
  }

  lemma {:induction false} JobParsed(j: Job, rest: seq<Tok>)
    requires JobFits(j) && (rest == [] || Head(rest, ");"))
    ensures var p := PPipe(JobToks(j) + rest); p.Ok? && PBacks(p.cmd, p.rest) == Ok(JobTree(j), rest)
  {
    hide PipeToks, PipeTree, PPipe;
    AmpsEnd(j.backs, rest);
    PipeParsed(j.cmds, Amps(j.backs) + rest);
    assert JobToks(j) + rest == PipeToks(j.cmds) + (Amps(j.backs) + rest);
    AmpsParsed(PipeTree(j.cmds), j.backs, rest);
  }

  /** The tree of a line: its jobs from left to right, each a pipeline of simple commands under as many `&` as follow
      it. Pipes and `;` nest to the right. */
  lemma {:induction false} LineParsed(jobs: seq<Job>, rest: seq<Tok>)
    requires jobs != [] && AllFit(jobs) && (rest == [] || Head(rest, ")"))
    ensures PLine(LineToks(jobs) + rest) == Ok(LineTree(jobs), rest)
    decreases |jobs|
  {
    hide PPipe, PBacks, JobToks, JobTree;
    if |jobs| == 1 {
      JobParsed(jobs[0], rest);
    } else {
      var more := LineToks(jobs[1..]);
      LineParsed(jobs[1..], rest);
      JobParsed(jobs[0], [Sym(';')] + (more + rest));
      Joined(JobToks(jobs[0]), Sym(';'), more, rest);
    }
  }
}
