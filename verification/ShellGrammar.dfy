/**
 The grammar of command lines, and the parser against it:

   line  ::= pipe {"&"} [";" line]
   pipe  ::= unit ["|" pipe]
   unit  ::= "(" line ")" redirs  |  redirs {word redirs}
   redirs ::= {("<" | ">" | ">>") word}

 A derivation has a text (its tokens) and a meaning (a tree). The parser accepts exactly the lines that have a
 derivation, and returns its tree.
 */
module ShellGrammar {
  import opened Shell
  import opened ShellPrint

  datatype Kind = Input | Output | Appending

  datatype File = File(kind: Kind, name: string)

  datatype Arg = Arg(word: string, files: seq<File>)

  datatype Unit = Block(line: Line, files: seq<File>) | Plain(files: seq<File>, args: seq<Arg>)

  datatype Pipeline = Alone(unit: Unit) | Into(unit: Unit, rest: Pipeline)

  datatype Line = Line(pipe: Pipeline, backs: nat, rest: Rest)

  datatype Rest = End | Then(line: Line)

  // ------------------------------------------------ legal derivations

  predicate LegalFiles(fs: seq<File>) {
    forall k :: 0 <= k < |fs| ==> LegalWord(fs[k].name)
  }

  predicate LegalArgs(args: seq<Arg>) {
    forall k :: 0 <= k < |args| ==> LegalWord(args[k].word) && LegalFiles(args[k].files)
  }

  /** Words are words, and there are fewer than MAXARGS in a command. */
  predicate LegalUnit(u: Unit) {
    match u
    case Block(l, fs) => LegalLine(l) && LegalFiles(fs)
    case Plain(fs, args) => LegalFiles(fs) && LegalArgs(args) && |args| < MAXARGS
  }

  predicate LegalPipe(p: Pipeline) {
    match p
    case Alone(u) => LegalUnit(u)
    case Into(u, r) => LegalUnit(u) && LegalPipe(r)
  }

  predicate LegalLine(l: Line) {
    LegalPipe(l.pipe) && (l.rest.Then? ==> LegalLine(l.rest.line))
  }

  // ------------------------------------------------ the text of a derivation, in front of the tokens `rest`

  function KindTok(k: Kind): Tok {
    match k
    case Input => Sym('<')
    case Output => Sym('>')
    case Appending => Append
  }

  function FileToks(fs: seq<File>, rest: Toks): Toks {
    if fs == [] then rest else Cons(KindTok(fs[0].kind), Cons(Word(fs[0].name), FileToks(fs[1..], rest)))
  }

  function ArgToks(args: seq<Arg>, rest: Toks): Toks {
    if args == [] then rest else Cons(Word(args[0].word), FileToks(args[0].files, ArgToks(args[1..], rest)))
  }

  function UnitToks(u: Unit, rest: Toks): Toks {
    match u
    case Block(l, fs) => Cons(Sym('('), LineToks(l, Cons(Sym(')'), FileToks(fs, rest))))
    case Plain(fs, args) => FileToks(fs, ArgToks(args, rest))
  }

  function PipeToks(p: Pipeline, rest: Toks): Toks {
    match p
    case Alone(u) => UnitToks(u, rest)
    case Into(u, r) => UnitToks(u, Cons(Sym('|'), PipeToks(r, rest)))
  }

  function BackToks(n: nat, rest: Toks): Toks {
    if n == 0 then rest else Cons(Sym('&'), BackToks(n - 1, rest))
  }

  function RestToks(r: Rest, rest: Toks): Toks {
    match r
    case End => rest
    case Then(l) => Cons(Sym(';'), LineToks(l, rest))
  }

  function LineToks(l: Line, rest: Toks): Toks {
    PipeToks(l.pipe, BackToks(l.backs, RestToks(l.rest, rest)))
  }

  // ------------------------------------------------ its meaning

  /** > and >> both write: the shell has no appending open. */
  function Redirected(f: File): Redirection<string> {
    Redirection(f.name, !f.kind.Input?)
  }

  function Redirections(fs: seq<File>): (r: seq<Redirection<string>>)
    ensures |r| == |fs| && forall k :: 0 <= k < |fs| ==> r[k] == Redirected(fs[k])
  {
    seq(|fs|, k requires 0 <= k < |fs| => Redirected(fs[k]))
  }

  function Words(args: seq<Arg>): (r: seq<string>)
    ensures |r| == |args| && forall k :: 0 <= k < |args| ==> r[k] == args[k].word
  {
    seq(|args|, k requires 0 <= k < |args| => args[k].word)
  }

  /** The redirections between and behind the words, in order. */
  function ArgFiles(args: seq<Arg>): seq<Redirection<string>> {
    if args == [] then [] else Redirections(args[0].files) + ArgFiles(args[1..])
  }

  function UnitTree(u: Unit): Cmd<string> {
    match u
    case Block(l, fs) => Wrap(LineTree(l), Redirections(fs))
    case Plain(fs, args) => Wrap(Exec(Words(args)), Redirections(fs) + ArgFiles(args))
  }

  function PipeTree(p: Pipeline): Cmd<string> {
    match p
    case Alone(u) => UnitTree(u)
    case Into(u, r) => Pipe(UnitTree(u), PipeTree(r))
  }

  function Backs<T>(c: Cmd<T>, n: nat): Cmd<T>
    decreases n
  {
    if n == 0 then c else Backs(Back(c), n - 1)
  }

  function LineTree(l: Line): Cmd<string> {
    var c := Backs(PipeTree(l.pipe), l.backs);
    match l.rest
    case End => c
    case Then(m) => List(c, LineTree(m))
  }

  /** The tokens end here, or go on with one of toks. */
  predicate Ends(u: Toks, toks: string) {
    u.Nil? || StartsWith(u, toks)
  }

  /** What may follow a command at each level of the grammar. */
  lemma FollowSets(u: Toks)
    ensures Ends(u, ")") ==> Ends(u, ")&;") && !StartsWith(u, "&") && !StartsWith(u, ";")
    ensures Ends(u, ")&;") ==> Ends(u, "|)&;") && !StartsWith(u, "|")
    ensures Ends(u, "|)&;") ==> !StartsWith(u, "<>") && !StartsWith(u, "(")
  {
  }

  // ------------------------------------------------ redirections

  /** r holds the redirections rs and leaves the tokens `rest`. */
  ghost predicate RedirsRead(s: string, r: Result<seq<Redirection<Slice>>>, rs: seq<Redirection<string>>, rest: Toks) {
    r.Ok? && Lexes(s, r.next, rest) && RedirTexts(s, r.value) == rs
  }

  /** parseredirs() once through its loop. */
  lemma RedirStep(s: string, i: nat, t: Token, w: Token, r: Result<seq<Redirection<Slice>>>)
    requires i <= |s| && Peek(s, i, "<>") && t == GetToken(s, i) && w == GetToken(s, t.next) && w.tag == 'a'
    requires r == ParseRedirs(s, w.next) && r.Ok?
    ensures ParseRedirs(s, i) == Ok([Redirection(Slice(w.q, w.eq), t.tag != '<')] + r.value, r.next)
  {
  }

  lemma RedirCons(s: string, w: Slice, out: bool, more: seq<Redirection<Slice>>, fs: seq<File>)
    requires fs != [] && Redirected(fs[0]) == Redirection(Str(s, w), out)
    requires RedirTexts(s, more) == Redirections(fs[1..])
    ensures RedirTexts(s, [Redirection(w, out)] + more) == Redirections(fs)
  {
    var all, rs := RedirTexts(s, [Redirection(w, out)] + more), Redirections(fs);
    forall k | 0 <= k < |fs| ensures all[k] == rs[k] {
      if k > 0 {
        assert all[k] == RedirTexts(s, more)[k - 1] == Redirections(fs[1..])[k - 1];
      }
    }
  }

  lemma RedirsEnd(s: string, i: nat, rest: Toks)
    requires Lexes(s, i, rest) && !StartsWith(rest, "<>")
    ensures RedirsRead(s, ParseRedirs(s, i), [], rest)
  {
    PeekAt(s, i, rest, "<>");
    LexesPast(s, i, rest);
  }

  lemma {:induction false} FilesParse(s: string, i: nat, fs: seq<File>, rest: Toks)
    requires Lexes(s, i, FileToks(fs, rest)) && !StartsWith(rest, "<>")
    ensures RedirsRead(s, ParseRedirs(s, i), Redirections(fs), rest)
    decreases |fs|
  {
    var u := FileToks(fs, rest);
    if fs == [] {
      RedirsEnd(s, i, rest);
    } else {
      PeekAt(s, i, u, "<>");
      var q, e, j := NextToken(s, i, u);
      var p, f, k := NextToken(s, j, u.tail);
      FilesParse(s, k, fs[1..], rest);
      var r, tag := ParseRedirs(s, k), TagOf(u.head);
      RedirStep(s, i, Token(tag, q, e, j), Token('a', p, f, k), r);
      RedirCons(s, Slice(p, f), tag != '<', r.value, fs);
    }
  }

  // ------------------------------------------------ simple commands

  /** What parseexec()'s loop has gathered stands for these words and redirections. */
  ghost predicate Gathered(s: string, a: Simple, words: seq<string>, rs: seq<Redirection<string>>) {
    Strs(s, a.argv) == words && RedirTexts(s, a.redirs) == rs
  }

  lemma GatherMore(s: string, argv: seq<Slice>, redirs: seq<Redirection<Slice>>, words: seq<string>,
                   rs: seq<Redirection<string>>, w: Slice, text: string, more: seq<Redirection<Slice>>,
                   ms: seq<Redirection<string>>)
    requires Gathered(s, Simple(argv, redirs), words, rs) && Str(s, w) == text && RedirTexts(s, more) == ms
    ensures Gathered(s, Simple(argv + [w], redirs + more), words + [text], rs + ms)
  {
    assert Strs(s, argv + [w]) == words + [text];
    assert RedirTexts(s, redirs + more) == rs + ms;
  }

  /** parseexec() once through its loop. */
  lemma ArgStep(s: string, i: nat, argv: seq<Slice>, redirs: seq<Redirection<Slice>>, t: Token,
                r: Result<seq<Redirection<Slice>>>)
    requires i <= |s| && !Peek(s, i, "|)&;") && t == GetToken(s, i) && t.tag == 'a' && |argv| + 1 < MAXARGS
    requires r == ParseRedirs(s, t.next) && r.Ok?
    ensures ParseArgs(s, i, argv, redirs) == ParseArgs(s, r.next, argv + [Slice(t.q, t.eq)], redirs + r.value)
  {
  }

  ghost predicate ArgsRead(s: string, r: Result<Simple>, words: seq<string>, rs: seq<Redirection<string>>, rest: Toks) {
    r.Ok? && Lexes(s, r.next, rest) && Gathered(s, r.value, words, rs)
  }

  lemma ArgsEnd(s: string, i: nat, argv: seq<Slice>, redirs: seq<Redirection<Slice>>, done: seq<string>,
                rs: seq<Redirection<string>>, rest: Toks)
    requires Lexes(s, i, rest) && Ends(rest, "|)&;") && Gathered(s, Simple(argv, redirs), done, rs)
    ensures ArgsRead(s, ParseArgs(s, i, argv, redirs), done, rs, rest)
  {
    PeekAt(s, i, rest, "|)&;");
    LexesPast(s, i, rest);
    if rest.Nil? {
      NoToken(s, i);
    }
  }

  /** At the end of the line gettoken() returns 0. */
  lemma NoToken(s: string, i: nat)
    requires Lexes(s, i, Nil)
    ensures GetToken(s, i) == Token('\0', |s|, |s|, |s|) && !Peek(s, i, "|)&;")
  {
  }

  lemma WordsFirst(args: seq<Arg>, done: seq<string>, rs: seq<Redirection<string>>)
    requires args != []
    ensures done + Words(args) == done + [args[0].word] + Words(args[1..])
    ensures rs + ArgFiles(args) == rs + Redirections(args[0].files) + ArgFiles(args[1..])
  {
    assert Words(args) == [args[0].word] + Words(args[1..]);
  }

  /** A word does not begin with a symbol. */
  lemma WordStarts(w: string, u: Toks)
    requires LegalWord(w)
    ensures !StartsWith(Cons(Word(w), u), "<>") && !StartsWith(Cons(Word(w), u), "|)&;") &&
            !StartsWith(Cons(Word(w), u), "(")
  {
  }

  lemma ArgsStart(args: seq<Arg>, rest: Toks)
    requires LegalArgs(args) && Ends(rest, "|)&;")
    ensures !StartsWith(ArgToks(args, rest), "<>") && !StartsWith(ArgToks(args, rest), "(")
  {
    FollowSets(rest);
    if args != [] {
      WordStarts(args[0].word, ArgToks(args, rest).tail);
    }
  }

  lemma {:induction false} ArgsParse(s: string, i: nat, argv: seq<Slice>, redirs: seq<Redirection<Slice>>,
                                     done: seq<string>, rs: seq<Redirection<string>>, args: seq<Arg>, rest: Toks)
    requires Lexes(s, i, ArgToks(args, rest)) && Ends(rest, "|)&;") && LegalArgs(args) && |argv| + |args| < MAXARGS
    requires Gathered(s, Simple(argv, redirs), done, rs)
    ensures ArgsRead(s, ParseArgs(s, i, argv, redirs), done + Words(args), rs + ArgFiles(args), rest)
    decreases |args|
  {
    if args == [] {
      assert done + Words(args) == done && rs + ArgFiles(args) == rs;
      ArgsEnd(s, i, argv, redirs, done, rs, rest);
    } else {
      var u, more, fs := ArgToks(args, rest), args[1..], args[0].files;
      PeekAt(s, i, u, "|)&;");
      WordStarts(args[0].word, u.tail);
      var q, e, j := NextToken(s, i, u);
      ArgsStart(more, rest);
      FilesParse(s, j, fs, ArgToks(more, rest));
      var r, w := ParseRedirs(s, j), Slice(q, e);
      ArgStep(s, i, argv, redirs, Token('a', q, e, j), r);
      GatherMore(s, argv, redirs, done, rs, w, args[0].word, r.value, Redirections(fs));
      ArgsParse(s, r.next, argv + [w], redirs + r.value, done + [args[0].word], rs + Redirections(fs), more, rest);
      WordsFirst(args, done, rs);
    }
  }

  // ------------------------------------------------ commands

  /** r holds the command c and leaves the tokens `rest`. */
  ghost predicate CmdRead(s: string, r: Result<Cmd<Slice>>, c: Cmd<string>, rest: Toks) {
    r.Ok? && Lexes(s, r.next, rest) && Texts(s, r.value) == c
  }

  /** parseexec() of a simple command, from the parts. */
  lemma PlainRead(s: string, i: nat, r: Result<seq<Redirection<Slice>>>, a: Result<Simple>, argv: seq<string>,
                  rs: seq<Redirection<string>>, rest: Toks)
    requires i <= |s| && !Peek(s, i, "(") && r == ParseRedirs(s, i) && r.Ok? && a == ParseArgs(s, r.next, [], r.value)
    requires ArgsRead(s, a, argv, rs, rest)
    ensures CmdRead(s, ParseExec(s, i), Wrap(Exec(argv), rs), rest)
  {
    WrapTexts(s, Exec(a.value.argv), a.value.redirs);
  }

  lemma FilesStart(fs: seq<File>, rest: Toks)
    requires !StartsWith(rest, "(")
    ensures !StartsWith(FileToks(fs, rest), "(")
  {
  }

  lemma PlainParses(s: string, i: nat, fs: seq<File>, args: seq<Arg>, rest: Toks)
    requires Lexes(s, i, FileToks(fs, ArgToks(args, rest))) && Ends(rest, "|)&;") && LegalArgs(args) && |args| < MAXARGS
    ensures CmdRead(s, ParseExec(s, i), Wrap(Exec(Words(args)), Redirections(fs) + ArgFiles(args)), rest)
  {
    ArgsStart(args, rest);
    FilesStart(fs, ArgToks(args, rest));
    PeekAt(s, i, FileToks(fs, ArgToks(args, rest)), "(");
    FilesParse(s, i, fs, ArgToks(args, rest));
    var r, rs := ParseRedirs(s, i), Redirections(fs);
    assert Gathered(s, Simple([], r.value), [], rs);
    ArgsParse(s, r.next, [], r.value, [], rs, args, rest);
    assert [] + Words(args) == Words(args);
    PlainRead(s, i, r, ParseArgs(s, r.next, [], r.value), Words(args), rs + ArgFiles(args), rest);
  }

  /** parseblock(), from the parts. */
  lemma BlockRead(s: string, i: nat, t: Token, c: Result<Cmd<Slice>>, t1: Token, r: Result<seq<Redirection<Slice>>>,
                  b: Cmd<string>, rs: seq<Redirection<string>>, rest: Toks)
    requires i <= |s| &&
             Peek(s, i, "(") && t == GetToken(s, i) && c == ParseLine(s, t.next) && c.Ok? && Texts(s, c.value) == b
    requires Peek(s, c.next, ")") && t1 == GetToken(s, c.next) && r == ParseRedirs(s, t1.next) &&
             RedirsRead(s, r, rs, rest)
    ensures CmdRead(s, ParseExec(s, i), Wrap(b, rs), rest)
  {
    WrapTexts(s, c.value, r.value);
  }

  lemma BlockParses(s: string, i: nat, t: Token, l: Result<Cmd<Slice>>, b: Cmd<string>, fs: seq<File>, rest: Toks,
                    close: Toks)
    requires i <= |s| && Peek(s, i, "(") && t == GetToken(s, i) && l == ParseLine(s, t.next) && Ends(rest, "|)&;")
    requires CmdRead(s, l, b, close) && close == Cons(Sym(')'), FileToks(fs, rest))
    ensures CmdRead(s, ParseExec(s, i), Wrap(b, Redirections(fs)), rest)
  {
    var n := l.next;
    PeekAt(s, n, close, ")");
    FollowSets(rest);
    var q, f, k := NextToken(s, n, close);
    FilesParse(s, k, fs, rest);
    var r, t1 := ParseRedirs(s, k), Token(')', q, f, k);
    BlockRead(s, i, t, l, t1, r, b, Redirections(fs), rest);
  }

  lemma {:induction false} UnitParses(s: string, i: nat, u: Unit, rest: Toks)
    requires Lexes(s, i, UnitToks(u, rest)) && Ends(rest, "|)&;") && LegalUnit(u)
    ensures CmdRead(s, ParseExec(s, i), UnitTree(u), rest)
    decreases u
  {
    match u
    case Plain(fs, args) => PlainParses(s, i, fs, args, rest);
    case Block(l, fs) =>
      var toks, close := UnitToks(u, rest), Cons(Sym(')'), FileToks(fs, rest));
      PeekAt(s, i, toks, "(");
      var q, e, j := NextToken(s, i, toks);
      LineParses(s, j, l, close);
      BlockParses(s, i, Token('(', q, e, j), ParseLine(s, j), LineTree(l), fs, rest, close);
  }

  /** parsepipe() after its first command. */
  lemma PipeRead(s: string, i: nat, l: Result<Cmd<Slice>>, t: Token, r: Result<Cmd<Slice>>)
    requires i <= |s| && l == ParseExec(s, i) && l.Ok? && Peek(s, l.next, "|") && t == GetToken(s, l.next)
    requires r == ParsePipe(s, t.next) && r.Ok?
    ensures ParsePipe(s, i) == Ok(Pipe(l.value, r.value), r.next)
  {
  }

  lemma PipeEnds(s: string, i: nat, l: Result<Cmd<Slice>>, c: Cmd<string>, rest: Toks)
    requires i <= |s| && l == ParseExec(s, i) && CmdRead(s, l, c, rest) && Ends(rest, ")&;")
    ensures CmdRead(s, ParsePipe(s, i), c, rest)
  {
    FollowSets(rest);
    PeekAt(s, l.next, rest, "|");
    LexesPast(s, l.next, rest);
  }

  lemma PipeGoesOn(s: string, i: nat, c: Cmd<string>, d: Cmd<string>, l: Result<Cmd<Slice>>, more: Toks, rest: Toks,
                   t: Token)
    requires i <= |s| && l == ParseExec(s, i) && CmdRead(s, l, c, more) && more.Cons? && more.head == Sym('|')
    requires GetToken(s, l.next) == t && CmdRead(s, ParsePipe(s, t.next), d, rest)
    ensures CmdRead(s, ParsePipe(s, i), Pipe(c, d), rest)
  {
    PeekAt(s, l.next, more, "|");
    PipeRead(s, i, l, t, ParsePipe(s, t.next));
  }

  lemma {:induction false} PipeParses(s: string, i: nat, p: Pipeline, rest: Toks)
    requires Lexes(s, i, PipeToks(p, rest)) && Ends(rest, ")&;") && LegalPipe(p)
    ensures CmdRead(s, ParsePipe(s, i), PipeTree(p), rest)
    decreases p, 0
  {
    FollowSets(rest);
    match p
    case Alone(u) =>
      UnitParses(s, i, u, rest);
      PipeEnds(s, i, ParseExec(s, i), UnitTree(u), rest);
    case Into(u, r) =>
      var more := Cons(Sym('|'), PipeToks(r, rest));
      UnitParses(s, i, u, more);
      var l := ParseExec(s, i);
      var q, e, j := NextToken(s, l.next, more);
      PipeParses(s, j, r, rest);
      PipeGoesOn(s, i, UnitTree(u), PipeTree(r), l, more, rest, Token('|', q, e, j));
  }

  lemma {:induction false} BacksTexts(s: string, c: Cmd<Slice>, n: nat)
    ensures Texts(s, Backs(c, n)) == Backs(Texts(s, c), n)
    decreases n
  {
    if n > 0 {
      BacksTexts(s, Back(c), n - 1);
    }
  }

  lemma {:induction false} BacksParse(s: string, i: nat, c: Cmd<Slice>, n: nat, rest: Toks)
    requires Lexes(s, i, BackToks(n, rest)) && !StartsWith(rest, "&")
    ensures ParseBacks(s, i, c).value == Backs(c, n) && Lexes(s, ParseBacks(s, i, c).next, rest)
    decreases n
  {
    PeekAt(s, i, BackToks(n, rest), "&");
    if n == 0 {
      LexesPast(s, i, rest);
    } else {
      var q, e, j := NextToken(s, i, BackToks(n, rest));
      BacksParse(s, j, Back(c), n - 1, rest);
    }
  }

  lemma BacksFollow(n: nat, r: Rest, rest: Toks)
    requires Ends(rest, ")")
    ensures Ends(BackToks(n, RestToks(r, rest)), ")&;") && !StartsWith(RestToks(r, rest), "&")
    ensures r.End? ==> !StartsWith(RestToks(r, rest), ";")
  {
    FollowSets(rest);
  }

  /** parseline() at a semicolon, from the parts. */
  lemma LineRead(s: string, i: nat, p: Result<Cmd<Slice>>, c: Result<Cmd<Slice>>, t: Token, d: Result<Cmd<Slice>>)
    requires i <= |s| && p == ParsePipe(s, i) && p.Ok? && c == ParseBacks(s, p.next, p.value) && Peek(s, c.next, ";")
    requires t == GetToken(s, c.next) && d == ParseLine(s, t.next) && d.Ok?
    ensures ParseLine(s, i) == Ok(List(c.value, d.value), d.next)
  {
  }

  lemma LineEnds(s: string, i: nat, p: Result<Cmd<Slice>>, c: Result<Cmd<Slice>>, rest: Toks)
    requires i <= |s| && p == ParsePipe(s, i) && p.Ok? && c == ParseBacks(s, p.next, p.value) && Lexes(s, c.next, rest)
    requires !StartsWith(rest, ";")
    ensures ParseLine(s, i) == Ok(c.value, SkipSpace(s, c.next)) && Lexes(s, SkipSpace(s, c.next), rest)
  {
    PeekAt(s, c.next, rest, ";");
    LexesPast(s, c.next, rest);
  }

  /** The pipeline and its &s: what parseline() has in hand when it reaches the tokens u. */
  lemma {:induction false} JobParses(s: string, i: nat, pipe: Pipeline, n: nat, u: Toks)
    returns (p: Result<Cmd<Slice>>, c: Result<Cmd<Slice>>)
    requires Lexes(s, i, PipeToks(pipe, BackToks(n, u))) && LegalPipe(pipe)
    requires Ends(BackToks(n, u), ")&;") && !StartsWith(u, "&")
    ensures p == ParsePipe(s, i) && p.Ok? && c == ParseBacks(s, p.next, p.value) && Lexes(s, c.next, u)
    ensures Texts(s, c.value) == Backs(PipeTree(pipe), n)
    decreases pipe, 1
  {
    PipeParses(s, i, pipe, BackToks(n, u));
    p := ParsePipe(s, i);
    BacksParse(s, p.next, p.value, n, u);
    BacksTexts(s, p.value, n);
    c := ParseBacks(s, p.next, p.value);
  }

  /** A line with a semicolon, put together. */
  lemma LineThen(l: Line, m: Line, rest: Toks)
    requires l.rest == Then(m) && LegalPipe(l.pipe) && LegalLine(m)
    ensures LegalLine(l) && LineToks(l, rest) == PipeToks(l.pipe, BackToks(l.backs, Cons(Sym(';'), LineToks(m, rest))))
    ensures LineTree(l) == List(Backs(PipeTree(l.pipe), l.backs), LineTree(m))
  {
  }

  lemma LineGoesOn(s: string, i: nat, p: Result<Cmd<Slice>>, c: Result<Cmd<Slice>>, u: Toks, t: Token,
                   d: Result<Cmd<Slice>>, first: Cmd<string>, second: Cmd<string>, rest: Toks)
    requires i <= |s| && p == ParsePipe(s, i) && p.Ok? && c == ParseBacks(s, p.next, p.value) && Lexes(s, c.next, u)
    requires u.Cons? && u.head == Sym(';') && t == GetToken(s, c.next) && d == ParseLine(s, t.next)
    requires Texts(s, c.value) == first && CmdRead(s, d, second, rest)
    ensures CmdRead(s, ParseLine(s, i), List(first, second), rest)
  {
    PeekAt(s, c.next, u, ";");
    LineRead(s, i, p, c, t, d);
  }

  lemma {:induction false} LineParses(s: string, i: nat, l: Line, rest: Toks)
    requires Lexes(s, i, LineToks(l, rest)) && Ends(rest, ")") && LegalLine(l)
    ensures CmdRead(s, ParseLine(s, i), LineTree(l), rest)
    decreases l
  {
    var u := RestToks(l.rest, rest);
    BacksFollow(l.backs, l.rest, rest);
    var p, c := JobParses(s, i, l.pipe, l.backs, u);
    match l.rest
    case End => LineEnds(s, i, p, c, rest);
    case Then(m) =>
      LineThen(l, m, rest);
      var q, e, j := NextToken(s, c.next, u);
      LineParses(s, j, m, rest);
      var first, second := Backs(PipeTree(l.pipe), l.backs), LineTree(m);
      LineGoesOn(s, i, p, c, u, Token(';', q, e, j), ParseLine(s, j), first, second, rest);
  }

  // ------------------------------------------------ the other way: every parse has a derivation

  lemma PeekIs(s: string, i: nat, toks: string)
    requires i <= |s| && Peek(s, i, toks)
    ensures var t := GetToken(s, i); t.q < |s| && s[t.q] in toks && t.tag == Tag(s, t.q)
  {
  }

  lemma FileThere(s: string, i: nat, t: Token, w: Token, rest: Toks) returns (f: File)
    requires i <= |s| && Peek(s, i, "<>") && t == GetToken(s, i) && w == GetToken(s, t.next) && w.tag == 'a'
    requires Lexes(s, w.next, rest)
    ensures LegalWord(f.name) && Lexes(s, i, Cons(KindTok(f.kind), Cons(Word(f.name), rest)))
    ensures Redirected(f) == Redirection(Str(s, Slice(w.q, w.eq)), t.tag != '<')
  {
    PeekIs(s, i, "<>");
    var word := TokenBefore(s, t.next, w, rest);
    var sym := TokenBefore(s, i, t, Cons(word, rest));
    f := File(if t.tag == '<' then Input else if t.tag == '>' then Output else Appending, word.text);
  }

  lemma {:induction false} FilesDerived(s: string, i: nat, rest: Toks) returns (fs: seq<File>)
    requires i <= |s| && ParseRedirs(s, i).Ok? && Lexes(s, ParseRedirs(s, i).next, rest)
    ensures LegalFiles(fs) && Lexes(s, i, FileToks(fs, rest))
    ensures RedirTexts(s, ParseRedirs(s, i).value) == Redirections(fs)
    decreases |s| - i
  {
    if !Peek(s, i, "<>") {
      fs := [];
      LexesPast(s, i, rest);
    } else {
      var t := GetToken(s, i);
      var w := GetToken(s, t.next);
      PeekIs(s, i, "<>");
      var r := ParseRedirs(s, w.next);
      var more := FilesDerived(s, w.next, rest);
      var f := FileThere(s, i, t, w, FileToks(more, rest));
      fs := [f] + more;
      assert fs[1..] == more;
      RedirCons(s, Slice(w.q, w.eq), t.tag != '<', r.value, fs);
    }
  }

  /** A word and its redirections, in front of the rest of the command. */
  lemma ArgThere(s: string, i: nat, t: Token, rest: Toks) returns (a: Arg)
    requires i <= |s| && t == GetToken(s, i) && t.tag == 'a' && ParseRedirs(s, t.next).Ok?
    requires Lexes(s, ParseRedirs(s, t.next).next, rest)
    ensures LegalWord(a.word) && LegalFiles(a.files) && Lexes(s, i, Cons(Word(a.word), FileToks(a.files, rest)))
    ensures a.word == Str(s, Slice(t.q, t.eq)) && RedirTexts(s, ParseRedirs(s, t.next).value) == Redirections(a.files)
  {
    var fs := FilesDerived(s, t.next, rest);
    var word := TokenBefore(s, i, t, FileToks(fs, rest));
    a := Arg(word.text, fs);
  }

  lemma {:induction false} ArgsDerived(s: string, i: nat, argv: seq<Slice>, redirs: seq<Redirection<Slice>>,
                                       done: seq<string>, rs: seq<Redirection<string>>, rest: Toks)
    returns (args: seq<Arg>)
    requires i <= |s| && ParseArgs(s, i, argv, redirs).Ok? && |argv| < MAXARGS
    requires Lexes(s, ParseArgs(s, i, argv, redirs).next, rest) && Gathered(s, Simple(argv, redirs), done, rs)
    ensures LegalArgs(args) && |argv| + |args| < MAXARGS && Lexes(s, i, ArgToks(args, rest))
    ensures Gathered(s, ParseArgs(s, i, argv, redirs).value, done + Words(args), rs + ArgFiles(args))
    decreases |s| - i
  {
    var t := GetToken(s, i);
    if Peek(s, i, "|)&;") || t.tag == '\0' {
      args := [];
      ArgsStop(s, i, argv, redirs, rest);
      assert done + Words(args) == done && rs + ArgFiles(args) == rs;
    } else {
      var r, w := ParseRedirs(s, t.next), Slice(t.q, t.eq);
      ArgStep(s, i, argv, redirs, t, r);
      var text, ms := Str(s, w), RedirTexts(s, r.value);
      GatherMore(s, argv, redirs, done, rs, w, text, r.value, ms);
      var more := ArgsDerived(s, r.next, argv + [w], redirs + r.value, done + [text], rs + ms, rest);
      var a := ArgThere(s, i, t, ArgToks(more, rest));
      args := [a] + more;
      assert args[1..] == more;
      WordsFirst(args, done, rs);
    }
  }

  lemma ArgsStop(s: string, i: nat, argv: seq<Slice>, redirs: seq<Redirection<Slice>>, rest: Toks)
    requires i <= |s| && (Peek(s, i, "|)&;") || GetToken(s, i).tag == '\0')
    requires ParseArgs(s, i, argv, redirs).Ok? && Lexes(s, ParseArgs(s, i, argv, redirs).next, rest)
    ensures ParseArgs(s, i, argv, redirs).value == Simple(argv, redirs) && Lexes(s, i, rest)
  {
    LexesPast(s, i, rest);
  }

  lemma PlainDerived(s: string, i: nat, rest: Toks) returns (u: Unit)
    requires i <= |s| && !Peek(s, i, "(") && ParseExec(s, i).Ok? && Lexes(s, ParseExec(s, i).next, rest)
    ensures LegalUnit(u) && Lexes(s, i, UnitToks(u, rest)) && Texts(s, ParseExec(s, i).value) == UnitTree(u)
  {
    var r := ParseRedirs(s, i);
    var a, rs := ParseArgs(s, r.next, [], r.value), RedirTexts(s, r.value);
    assert Gathered(s, Simple([], r.value), [], rs);
    var args := ArgsDerived(s, r.next, [], r.value, [], rs, rest);
    assert [] + Words(args) == Words(args);
    var fs := FilesDerived(s, i, ArgToks(args, rest));
    u := Plain(fs, args);
    WrapTexts(s, Exec(a.value.argv), a.value.redirs);
  }

  lemma {:induction false} UnitDerived(s: string, i: nat, rest: Toks) returns (u: Unit)
    requires i <= |s| && ParseExec(s, i).Ok? && Lexes(s, ParseExec(s, i).next, rest)
    ensures LegalUnit(u) && Lexes(s, i, UnitToks(u, rest)) && Texts(s, ParseExec(s, i).value) == UnitTree(u)
    decreases |s| - i, 1
  {
    if Peek(s, i, "(") {
      u := BlockDerived(s, i, rest);
    } else {
      u := PlainDerived(s, i, rest);
    }
  }

  lemma {:induction false} BlockDerived(s: string, i: nat, rest: Toks) returns (u: Unit)
    requires i <= |s| && Peek(s, i, "(") && ParseBlock(s, i).Ok? && Lexes(s, ParseBlock(s, i).next, rest)
    ensures LegalUnit(u) && Lexes(s, i, UnitToks(u, rest)) && Texts(s, ParseBlock(s, i).value) == UnitTree(u)
    decreases |s| - i, 0
  {
    var t := GetToken(s, i);
    PeekIs(s, i, "(");
    var c := ParseLine(s, t.next);
    var t1 := GetToken(s, c.next);
    PeekIs(s, c.next, ")");
    var r := ParseRedirs(s, t1.next);
    var fs := FilesDerived(s, t1.next, rest);
    var close := TokenBefore(s, c.next, t1, FileToks(fs, rest));
    var l := LineDerived(s, t.next, c, Cons(close, FileToks(fs, rest)));
    var open := TokenBefore(s, i, t, LineToks(l, Cons(close, FileToks(fs, rest))));
    u := Block(l, fs);
    WrapTexts(s, c.value, r.value);
  }

  lemma BarBefore(s: string, i: nat, t: Token, u: Toks)
    requires i <= |s| && Peek(s, i, "|") && t == GetToken(s, i) && Lexes(s, t.next, u)
    ensures Lexes(s, i, Cons(Sym('|'), u))
  {
    PeekIs(s, i, "|");
    var bar := TokenBefore(s, i, t, u);
  }

  lemma PipeStop(s: string, i: nat, c: Result<Cmd<Slice>>)
    requires i <= |s| && c == ParseExec(s, i) && c.Ok? && !Peek(s, c.next, "|")
    ensures ParsePipe(s, i) == Ok(c.value, SkipSpace(s, c.next))
  {
  }

  lemma {:induction false} PipeDerived(s: string, i: nat, rest: Toks) returns (p: Pipeline)
    requires i <= |s| && ParsePipe(s, i).Ok? && Lexes(s, ParsePipe(s, i).next, rest)
    ensures LegalPipe(p) && Lexes(s, i, PipeToks(p, rest)) && Texts(s, ParsePipe(s, i).value) == PipeTree(p)
    decreases |s| - i, 2
  {
    var c := ParseExec(s, i);
    if !Peek(s, c.next, "|") {
      PipeStop(s, i, c);
      LexesPast(s, c.next, rest);
      var u := UnitDerived(s, i, rest);
      p := Alone(u);
    } else {
      var t := GetToken(s, c.next);
      PipeRead(s, i, c, t, ParsePipe(s, t.next));
      var r := PipeDerived(s, t.next, rest);
      var v := PipeToks(r, rest);
      BarBefore(s, c.next, t, v);
      var u := UnitDerived(s, i, Cons(Sym('|'), v));
      p := Into(u, r);
    }
  }

  /** The loop over & once through. */
  lemma BackStep(s: string, i: nat, c: Cmd<Slice>, t: Token)
    requires i <= |s| && Peek(s, i, "&") && t == GetToken(s, i)
    ensures i < t.next <= |s| && t.q < |s| && t.tag == '&' && ParseBacks(s, i, c) == ParseBacks(s, t.next, Back(c))
  {
  }

  lemma BackStop(s: string, i: nat, c: Cmd<Slice>)
    requires i <= |s| && !Peek(s, i, "&")
    ensures ParseBacks(s, i, c) == Ok(c, SkipSpace(s, i))
  {
  }

  lemma BackBefore(s: string, i: nat, t: Token, u: Toks)
    requires i <= |s| && t == GetToken(s, i) && t.q < |s| && t.tag == '&' && Lexes(s, t.next, u)
    ensures Lexes(s, i, Cons(Sym('&'), u))
  {
    var amp := TokenBefore(s, i, t, u);
  }

  lemma BackMore(c: Cmd<Slice>, m: nat, n: nat, rest: Toks)
    requires n == m + 1
    ensures BackToks(n, rest) == Cons(Sym('&'), BackToks(m, rest)) && Backs(c, n) == Backs(Back(c), m)
  {
  }

  lemma {:induction false} BacksDerived(s: string, i: nat, c: Cmd<Slice>, r: Result<Cmd<Slice>>, rest: Toks)
    returns (n: nat)
    requires i <= |s| && r == ParseBacks(s, i, c) && Lexes(s, r.next, rest)
    ensures Lexes(s, i, BackToks(n, rest)) && r.value == Backs(c, n)
    decreases |s| - i
  {
    if Peek(s, i, "&") {
      var t, d := GetToken(s, i), Back(c);
      BackStep(s, i, c, t);
      var m := BacksDerived(s, t.next, d, r, rest);
      n := m + 1;
      BackBefore(s, i, t, BackToks(m, rest));
      BackMore(c, m, n, rest);
    } else {
      BackStop(s, i, c);
      LexesPast(s, i, rest);
      n := 0;
    }
  }

  /** The pipeline and its &s. */
  lemma {:induction false} JobDerived(s: string, i: nat, p: Result<Cmd<Slice>>, c: Result<Cmd<Slice>>, u: Toks)
    returns (pipe: Pipeline, n: nat)
    requires i <= |s| && p == ParsePipe(s, i) && p.Ok? && c == ParseBacks(s, p.next, p.value) && Lexes(s, c.next, u)
    ensures LegalPipe(pipe) && Lexes(s, i, PipeToks(pipe, BackToks(n, u)))
    ensures Texts(s, c.value) == Backs(PipeTree(pipe), n)
    decreases |s| - i, 3
  {
    n := BacksDerived(s, p.next, p.value, c, u);
    pipe := PipeDerived(s, i, BackToks(n, u));
    BacksTexts(s, p.value, n);
  }

  lemma LineStop(s: string, i: nat, p: Result<Cmd<Slice>>, c: Result<Cmd<Slice>>)
    requires i <= |s| && p == ParsePipe(s, i) && p.Ok? && c == ParseBacks(s, p.next, p.value) && !Peek(s, c.next, ";")
    ensures ParseLine(s, i) == Ok(c.value, SkipSpace(s, c.next))
  {
  }

  /** Line s from i on has derivation l, and c is its tree. */
  ghost predicate LineFound(s: string, i: nat, l: Line, c: Cmd<Slice>, rest: Toks) {
    LegalLine(l) && Lexes(s, i, LineToks(l, rest)) && Texts(s, c) == LineTree(l)
  }

  lemma LineFoundEnd(s: string, i: nat, pipe: Pipeline, n: nat, c: Cmd<Slice>, l: Line, rest: Toks)
    requires LegalPipe(pipe) && Lexes(s, i, PipeToks(pipe, BackToks(n, rest))) && l == Line(pipe, n, End)
    requires Texts(s, c) == Backs(PipeTree(pipe), n)
    ensures LineFound(s, i, l, c, rest)
  {
  }

  lemma LineFoundThen(s: string, i: nat, pipe: Pipeline, n: nat, m: Line, c: Cmd<Slice>, d: Cmd<Slice>, l: Line,
                      rest: Toks)
    requires LegalPipe(pipe) && LegalLine(m) && l == Line(pipe, n, Then(m))
    requires Lexes(s, i, PipeToks(pipe, BackToks(n, Cons(Sym(';'), LineToks(m, rest)))))
    requires Texts(s, c) == Backs(PipeTree(pipe), n) && Texts(s, d) == LineTree(m)
    ensures LineFound(s, i, l, List(c, d), rest)
  {
    LineThen(l, m, rest);
  }

  lemma SemiBefore(s: string, i: nat, t: Token, u: Toks)
    requires i <= |s| && Peek(s, i, ";") && t == GetToken(s, i) && Lexes(s, t.next, u)
    ensures Lexes(s, i, Cons(Sym(';'), u))
  {
    PeekIs(s, i, ";");
    var semi := TokenBefore(s, i, t, u);
  }

  lemma {:induction false} LineDerived(s: string, i: nat, r: Result<Cmd<Slice>>, rest: Toks) returns (l: Line)
    requires i <= |s| && r == ParseLine(s, i) && r.Ok? && Lexes(s, r.next, rest)
    ensures LineFound(s, i, l, r.value, rest)
    decreases |s| - i, 4
  {
    var p := ParsePipe(s, i);
    var c := ParseBacks(s, p.next, p.value);
    if !Peek(s, c.next, ";") {
      LineStop(s, i, p, c);
      LexesPast(s, c.next, rest);
      var pipe, n := JobDerived(s, i, p, c, rest);
      l := Line(pipe, n, End);
      LineFoundEnd(s, i, pipe, n, c.value, l, rest);
    } else {
      var t := GetToken(s, c.next);
      var d := ParseLine(s, t.next);
      LineRead(s, i, p, c, t, d);
      var m := LineDerived(s, t.next, d, rest);
      var u := LineToks(m, rest);
      SemiBefore(s, c.next, t, u);
      var pipe, n := JobDerived(s, i, p, c, Cons(Sym(';'), u));
      l := Line(pipe, n, Then(m));
      LineFoundThen(s, i, pipe, n, m, c.value, d.value, l, rest);
    }
  }

  // ------------------------------------------------ the theorem

  /** Line s is a spelling of derivation l. */
  ghost predicate Spells(s: string, l: Line) {
    LegalLine(l) && Lexes(s, 0, LineToks(l, Nil))
  }

  ghost predicate Derivable(s: string, c: Cmd<string>) {
    exists l :: Spells(s, l) && LineTree(l) == c
  }

  lemma SpelledParses(s: string, l: Line)
    requires Spells(s, l)
    ensures ParseCmd(s).Ok? && Texts(s, ParseCmd(s).value) == LineTree(l)
  {
    LineParses(s, 0, l, Nil);
    assert SkipSpace(s, ParseLine(s, 0).next) == |s|;
  }

  lemma ParsedIsSpelled(s: string) returns (l: Line)
    requires ParseCmd(s).Ok?
    ensures Spells(s, l) && Texts(s, ParseCmd(s).value) == LineTree(l)
  {
    assert Lexes(s, ParseLine(s, 0).next, Nil);
    l := LineDerived(s, 0, ParseLine(s, 0), Nil);
  }

  /** The parser accepts a line exactly if it has a derivation, and its tree is the meaning of that derivation. */
  lemma ParsesIff(s: string, c: Cmd<string>)
    ensures ParseCmd(s).Ok? && Texts(s, ParseCmd(s).value) == c <==> Derivable(s, c)
    ensures ParseCmd(s).Panic? <==> forall l :: !Spells(s, l)
  {
    if ParseCmd(s).Ok? {
      var l := ParsedIsSpelled(s);
    }
    forall l | Spells(s, l) ensures ParseCmd(s).Ok? && Texts(s, ParseCmd(s).value) == LineTree(l) {
      SpelledParses(s, l);
    }
  }

  /** So no line means two things. */
  lemma Unambiguous(s: string, l: Line, m: Line)
    requires Spells(s, l) && Spells(s, m)
    ensures LineTree(l) == LineTree(m)
  {
    SpelledParses(s, l);
    SpelledParses(s, m);
  }
}
