/** Every legal tree can be written as a line that parses back to it. */
module ShellRoundTrip {
  import opened Shell
  import opened ShellPrint
  import opened ShellGrammar

  /** Trees with legal words, and fewer than MAXARGS arguments. */
  predicate Legal(c: Cmd<string>) {
    match c
    case Exec(argv) => |argv| < MAXARGS && forall k :: 0 <= k < |argv| ==> LegalWord(argv[k])
    case Redir(d, file, _) => LegalWord(file) && Legal(d)
    case Pipe(l, r) => Legal(l) && Legal(r)
    case List(l, r) => Legal(l) && Legal(r)
    case Back(d) => Legal(d)
  }

  // ------------------------------------------------ a derivation for every tree

  function Base<T>(c: Cmd<T>): (b: Cmd<T>)
    ensures !b.Redir? && (b == c || b < c)
  {
    if c.Redir? then Base(c.cmd) else c
  }

  function Redirs<T>(c: Cmd<T>): seq<Redirection<T>> {
    if c.Redir? then Redirs(c.cmd) + [Redirection(c.file, c.out)] else []
  }

  lemma BaseAndRedirs<T>(c: Cmd<T>)
    ensures Wrap(Base(c), Redirs(c)) == c
  {
    if c.Redir? {
      BaseAndRedirs(c.cmd);
      assert Redirs(c)[..|Redirs(c)| - 1] == Redirs(c.cmd);
    }
  }

  function FilesOf(rs: seq<Redirection<string>>): (fs: seq<File>)
    ensures |fs| == |rs| && forall k :: 0 <= k < |rs| ==> fs[k] == File(if rs[k].out then Output else Input, rs[k].file)
  {
    seq(|rs|, k requires 0 <= k < |rs| => File(if rs[k].out then Output else Input, rs[k].file))
  }

  function ArgsOf(argv: seq<string>): (args: seq<Arg>)
    ensures |args| == |argv| && forall k :: 0 <= k < |argv| ==> args[k] == Arg(argv[k], [])
  {
    seq(|argv|, k requires 0 <= k < |argv| => Arg(argv[k], []))
  }

  predicate Small<T>(c: Cmd<T>) {
    c.Exec? || c.Redir?
  }

  /** Redirections and words, or a block. */
  function UnitOf(c: Cmd<string>): Unit
    decreases c, 5
  {
    var b, fs := Base(c), FilesOf(Redirs(c));
    if b.Exec? then Plain(fs, ArgsOf(b.argv)) else Block(LineOf(b), fs)
  }

  function PipeOf(c: Cmd<string>): Pipeline
    decreases c, if c.Pipe? then 1 else 6
  {
    if c.Pipe? then Into(UnitOf(c.left), PipeOf(c.right)) else Alone(UnitOf(c))
  }

  /** A pipeline with n &s behind it, and what follows. */
  function JobOf(c: Cmd<string>, n: nat, rest: Rest): Line
    decreases c, if c.Back? || c.Pipe? then 2 else 7
  {
    if c.Back? then JobOf(c.job, n + 1, rest) else Line(PipeOf(c), n, rest)
  }

  function LineOf(c: Cmd<string>): Line
    decreases c, if Small(c) then 8 else 3
  {
    if c.List? then JobOf(c.first, 0, Then(LineOf(c.rest))) else JobOf(c, 0, End)
  }

  // ------------------------------------------------ it is legal, and means that tree

  lemma FilesMean(rs: seq<Redirection<string>>)
    ensures Redirections(FilesOf(rs)) == rs
  {
  }

  lemma {:induction false} ArgsMean(argv: seq<string>)
    ensures Words(ArgsOf(argv)) == argv && ArgFiles(ArgsOf(argv)) == []
    decreases |argv|
  {
    if argv != [] {
      ArgsMean(argv[1..]);
      assert ArgsOf(argv)[1..] == ArgsOf(argv[1..]);
    }
  }

  lemma FilesLegal(c: Cmd<string>)
    requires Legal(c)
    ensures LegalFiles(FilesOf(Redirs(c))) && Legal(Base(c))
  {
    if c.Redir? {
      FilesLegal(c.cmd);
      var fs, gs := FilesOf(Redirs(c)), FilesOf(Redirs(c.cmd));
      forall k | 0 <= k < |fs| ensures LegalWord(fs[k].name) {
        assert k < |gs| ==> fs[k] == gs[k];
      }
    }
  }

  lemma {:induction false} UnitMeans(c: Cmd<string>)
    requires Legal(c)
    ensures LegalUnit(UnitOf(c)) && UnitTree(UnitOf(c)) == c
    decreases c, 5
  {
    var b, rs := Base(c), Redirs(c);
    BaseAndRedirs(c);
    FilesLegal(c);
    FilesMean(rs);
    if b.Exec? {
      ArgsMean(b.argv);
      assert rs + [] == rs;
    } else {
      LineMeans(b);
    }
  }

  lemma {:induction false} PipeMeans(c: Cmd<string>)
    requires Legal(c)
    ensures LegalPipe(PipeOf(c)) && PipeTree(PipeOf(c)) == c
    decreases c, if c.Pipe? then 1 else 6
  {
    if c.Pipe? {
      UnitMeans(c.left);
      PipeMeans(c.right);
    } else {
      UnitMeans(c);
    }
  }

  /** The meaning of a line whose pipeline means c. */
  function Followed(c: Cmd<string>, rest: Rest): Cmd<string> {
    match rest
    case End => c
    case Then(l) => List(c, LineTree(l))
  }

  lemma {:induction false} JobMeans(c: Cmd<string>, n: nat, rest: Rest)
    requires Legal(c) && (rest.Then? ==> LegalLine(rest.line))
    ensures LegalLine(JobOf(c, n, rest)) && LineTree(JobOf(c, n, rest)) == Followed(Backs(c, n), rest)
    decreases c, if c.Back? || c.Pipe? then 2 else 7
  {
    if c.Back? {
      JobMeans(c.job, n + 1, rest);
    } else {
      PipeMeans(c);
    }
  }

  lemma {:induction false} LineMeans(c: Cmd<string>)
    requires Legal(c)
    ensures LegalLine(LineOf(c)) && LineTree(LineOf(c)) == c
    decreases c, if Small(c) then 8 else 3
  {
    if c.List? {
      LineMeans(c.rest);
      JobMeans(c.first, 0, Then(LineOf(c.rest)));
    } else {
      JobMeans(c, 0, End);
    }
  }

  // ------------------------------------------------ its tokens are legal

  lemma {:induction false} FileToksLegal(fs: seq<File>, rest: Toks)
    requires LegalFiles(fs) && LegalToks(rest)
    ensures LegalToks(FileToks(fs, rest))
    decreases |fs|
  {
    if fs != [] {
      FileToksLegal(fs[1..], rest);
    }
  }

  lemma {:induction false} ArgToksLegal(args: seq<Arg>, rest: Toks)
    requires LegalArgs(args) && LegalToks(rest)
    ensures LegalToks(ArgToks(args, rest))
    decreases |args|
  {
    if args != [] {
      ArgToksLegal(args[1..], rest);
      FileToksLegal(args[0].files, ArgToks(args[1..], rest));
    }
  }

  lemma {:induction false} UnitToksLegal(u: Unit, rest: Toks)
    requires LegalUnit(u) && LegalToks(rest)
    ensures LegalToks(UnitToks(u, rest))
    decreases u
  {
    match u
    case Plain(fs, args) =>
      ArgToksLegal(args, rest);
      FileToksLegal(fs, ArgToks(args, rest));
    case Block(l, fs) =>
      FileToksLegal(fs, rest);
      LineToksLegal(l, Cons(Sym(')'), FileToks(fs, rest)));
  }

  lemma {:induction false} PipeToksLegal(p: Pipeline, rest: Toks)
    requires LegalPipe(p) && LegalToks(rest)
    ensures LegalToks(PipeToks(p, rest))
    decreases p
  {
    match p
    case Alone(u) => UnitToksLegal(u, rest);
    case Into(u, r) =>
      PipeToksLegal(r, rest);
      UnitToksLegal(u, Cons(Sym('|'), PipeToks(r, rest)));
  }

  lemma {:induction false} BackToksLegal(n: nat, rest: Toks)
    requires LegalToks(rest)
    ensures LegalToks(BackToks(n, rest))
    decreases n
  {
    if n > 0 {
      BackToksLegal(n - 1, rest);
    }
  }

  lemma {:induction false} LineToksLegal(l: Line, rest: Toks)
    requires LegalLine(l) && LegalToks(rest)
    ensures LegalToks(LineToks(l, rest))
    decreases l
  {
    if l.rest.Then? {
      LineToksLegal(l.rest.line, rest);
    }
    BackToksLegal(l.backs, RestToks(l.rest, rest));
    PipeToksLegal(l.pipe, BackToks(l.backs, RestToks(l.rest, rest)));
  }

  // ------------------------------------------------ the theorem

  /** A derivation as a line of text. */
  function Spelled(l: Line): string {
    Show(LineToks(l, Nil))
  }

  lemma SpelledSpells(l: Line)
    requires LegalLine(l)
    ensures Spells(Spelled(l), l)
  {
    var s, u := Spelled(l), LineToks(l, Nil);
    LineToksLegal(l, Nil);
    assert s == "" + Show(u);
    ShowLexes("", u, s);
  }

  /** A command tree as a line of text. */
  function Print(c: Cmd<string>): string {
    Spelled(LineOf(c))
  }

  /** Printing any legal tree and parsing the line gives back the same tree. */
  lemma RoundTrip(c: Cmd<string>)
    requires Legal(c)
    ensures var s := Print(c); ParseCmd(s).Ok? && Texts(s, ParseCmd(s).value) == c
  {
    LineMeans(c);
    SpelledSpells(LineOf(c));
    SpelledParses(Print(c), LineOf(c));
  }
}
