/** nulterminate(): the words of a parsed command become C strings in the line's own buffer. */
module ShellBuffer {
  import opened Shell
  import opened ShellPrint
  import opened ShellRoundTrip

  function SetOf(ws: seq<Slice>): set<Slice> {
    set w | w in ws
  }

  /** All words of a command. */
  function Words(c: Cmd<Slice>): set<Slice> {
    match c
    case Exec(argv) => SetOf(argv)
    case Redir(d, file, _) => Words(d) + {file}
    case Pipe(l, r) => Words(l) + Words(r)
    case List(l, r) => Words(l) + Words(r)
    case Back(d) => Words(d)
  }

  /** Every word of c is a whole word of the line. */
  ghost predicate WholeWords(s: string, c: Cmd<Slice>) {
    forall w :: w in Words(c) ==> WordSlice(s, w)
  }

  /** Every word is a whole word of the line, and no command has more than nine. */
  ghost predicate Proper(s: string, c: Cmd<Slice>) {
    match c
    case Exec(argv) => |argv| < MAXARGS && forall k :: 0 <= k < |argv| ==> WordSlice(s, argv[k])
    case Redir(d, file, _) => Proper(s, d) && WordSlice(s, file)
    case Pipe(l, r) => Proper(s, l) && Proper(s, r)
    case List(l, r) => Proper(s, l) && Proper(s, r)
    case Back(d) => Proper(s, d)
  }

  lemma {:induction false} ProperWhole(s: string, c: Cmd<Slice>)
    requires Proper(s, c)
    ensures WholeWords(s, c)
    decreases c
  {
    match c
    case Exec(_) =>
    case Redir(d, _, _) => ProperWhole(s, d);
    case Pipe(l, r) =>
      ProperWhole(s, l);
      ProperWhole(s, r);
    case List(l, r) =>
      ProperWhole(s, l);
      ProperWhole(s, r);
    case Back(d) => ProperWhole(s, d);
  }

  lemma {:induction false} ProperLegal(s: string, c: Cmd<Slice>)
    requires Proper(s, c)
    ensures Legal(Texts(s, c))
    decreases c
  {
    match c
    case Exec(argv) =>
      forall k | 0 <= k < |argv| ensures LegalWord(Str(s, argv[k])) {
        assert WordSlice(s, argv[k]);
      }
    case Redir(d, _, _) => ProperLegal(s, d);
    case Pipe(l, r) =>
      ProperLegal(s, l);
      ProperLegal(s, r);
    case List(l, r) =>
      ProperLegal(s, l);
      ProperLegal(s, r);
    case Back(d) => ProperLegal(s, d);
  }

  ghost predicate FilesWhole(s: string, rs: seq<Redirection<Slice>>) {
    forall k :: 0 <= k < |rs| ==> WordSlice(s, rs[k].file)
  }

  lemma {:induction false} WrapProper(s: string, c: Cmd<Slice>, rs: seq<Redirection<Slice>>)
    requires Proper(s, c) && FilesWhole(s, rs)
    ensures Proper(s, Wrap(c, rs))
    decreases |rs|
  {
    if rs != [] {
      WrapProper(s, c, rs[..|rs| - 1]);
    }
  }

  lemma {:induction false} RedirsWhole(s: string, i: nat)
    requires i <= |s| && ParseRedirs(s, i).Ok?
    ensures FilesWhole(s, ParseRedirs(s, i).value)
    decreases |s| - i
  {
    if Peek(s, i, "<>") {
      var w := GetToken(s, GetToken(s, i).next);
      RedirsWhole(s, w.next);
    }
  }

  ghost predicate SimpleWhole(s: string, a: Simple) {
    FilesWhole(s, a.redirs) && forall k :: 0 <= k < |a.argv| ==> WordSlice(s, a.argv[k])
  }

  lemma {:induction false} ArgsWhole(s: string, i: nat, argv: seq<Slice>, redirs: seq<Redirection<Slice>>)
    requires i <= |s| && ParseArgs(s, i, argv, redirs).Ok? && SimpleWhole(s, Simple(argv, redirs)) && |argv| < MAXARGS
    ensures var a := ParseArgs(s, i, argv, redirs).value; SimpleWhole(s, a) && |a.argv| < MAXARGS
    decreases |s| - i
  {
    var t := GetToken(s, i);
    if !Peek(s, i, "|)&;") && t.tag != '\0' {
      RedirsWhole(s, t.next);
      var r := ParseRedirs(s, t.next);
      ArgsWhole(s, r.next, argv + [Slice(t.q, t.eq)], redirs + r.value);
    }
  }

  lemma {:induction false} ExecProper(s: string, i: nat)
    requires i <= |s| && ParseExec(s, i).Ok?
    ensures Proper(s, ParseExec(s, i).value)
    decreases |s| - i, 1
  {
    if Peek(s, i, "(") {
      BlockProper(s, i);
    } else {
      RedirsWhole(s, i);
      var rs := ParseRedirs(s, i);
      ArgsWhole(s, rs.next, [], rs.value);
      var a := ParseArgs(s, rs.next, [], rs.value).value;
      WrapProper(s, Exec(a.argv), a.redirs);
    }
  }

  lemma {:induction false} BlockProper(s: string, i: nat)
    requires i <= |s| && Peek(s, i, "(") && ParseBlock(s, i).Ok?
    ensures Proper(s, ParseBlock(s, i).value)
    decreases |s| - i, 0
  {
    var t := GetToken(s, i);
    LineProper(s, t.next);
    var c := ParseLine(s, t.next);
    var u := GetToken(s, c.next);
    RedirsWhole(s, u.next);
    WrapProper(s, c.value, ParseRedirs(s, u.next).value);
  }

  lemma {:induction false} PipeProper(s: string, i: nat)
    requires i <= |s| && ParsePipe(s, i).Ok?
    ensures Proper(s, ParsePipe(s, i).value)
    decreases |s| - i, 2
  {
    ExecProper(s, i);
    var c := ParseExec(s, i);
    if Peek(s, c.next, "|") {
      PipeProper(s, GetToken(s, c.next).next);
    }
  }

  lemma {:induction false} BacksProper(s: string, i: nat, c: Cmd<Slice>)
    requires i <= |s| && Proper(s, c)
    ensures Proper(s, ParseBacks(s, i, c).value)
    decreases |s| - i
  {
    if Peek(s, i, "&") {
      BacksProper(s, GetToken(s, i).next, Back(c));
    }
  }

  lemma {:induction false} LineProper(s: string, i: nat)
    requires i <= |s| && ParseLine(s, i).Ok?
    ensures Proper(s, ParseLine(s, i).value)
    decreases |s| - i, 3
  {
    PipeProper(s, i);
    var p := ParsePipe(s, i);
    BacksProper(s, p.next, p.value);
    var c := ParseBacks(s, p.next, p.value);
    if Peek(s, c.next, ";") {
      LineProper(s, GetToken(s, c.next).next);
    }
  }

  /** Whatever the line, a tree that the parser builds is a legal one: with RoundTrip, these are exactly its trees. */
  lemma ParsedIsLegal(s: string)
    requires ParseCmd(s).Ok?
    ensures Legal(Texts(s, ParseCmd(s).value))
  {
    LineProper(s, 0);
    ProperLegal(s, ParseCmd(s).value);
  }

  /** So any line that parses, however it is spelled, can be printed and parsed again to the same tree. */
  lemma Reprints(s: string)
    requires ParseCmd(s).Ok?
    ensures var t := Print(Texts(s, ParseCmd(s).value));
      ParseCmd(t).Ok? && Texts(t, ParseCmd(t).value) == Texts(s, ParseCmd(s).value)
  {
    ParsedIsLegal(s);
    RoundTrip(Texts(s, ParseCmd(s).value));
  }

  // ------------------------------------------------ writing the NULs

  /** buf is old with NULs at the ends of the words ws, and nothing else changed. */
  ghost predicate Cut(was: string, now: string, ws: set<Slice>) {
    && |now| == |was|
    && forall k :: 0 <= k < |was| ==> now[k] == if EndsAt(ws, k) then '\0' else was[k]
  }

  ghost predicate EndsAt(ws: set<Slice>, k: nat) {
    exists w :: w in ws && w.eq == k
  }

  lemma CutTwice(a: string, b: string, c: string, ws: set<Slice>, vs: set<Slice>)
    requires Cut(a, b, ws) && Cut(b, c, vs)
    ensures Cut(a, c, ws + vs)
  {
    forall k | 0 <= k < |a| ensures c[k] == if EndsAt(ws + vs, k) then '\0' else a[k] {
      assert EndsAt(ws, k) ==> EndsAt(ws + vs, k);
      assert EndsAt(vs, k) ==> EndsAt(ws + vs, k);
      assert EndsAt(ws + vs, k) ==> EndsAt(ws, k) || EndsAt(vs, k);
    }
  }

  lemma CutOne(a: string, b: string, w: Slice)
    requires w.eq < |a| && b == a[w.eq := '\0']
    ensures Cut(a, b, {w})
  {
    forall k | 0 <= k < |a| ensures b[k] == if EndsAt({w}, k) then '\0' else a[k] {
      assert k == w.eq ==> w in {w} && EndsAt({w}, k);
    }
  }

  /** *w.eq = 0. */
  method Terminate(buf: array<char>, w: Slice)
    requires w.eq < buf.Length
    modifies buf
    ensures Cut(old(buf[..]), buf[..], {w})
  {
    buf[w.eq] := '\0';
    assert buf[..] == old(buf[..])[w.eq := '\0'];
    CutOne(old(buf[..]), buf[..], w);
  }

  /** The loop over argv. */
  method TerminateArgs(buf: array<char>, argv: seq<Slice>)
    requires forall k :: 0 <= k < |argv| ==> argv[k].eq < buf.Length
    modifies buf
    ensures Cut(old(buf[..]), buf[..], SetOf(argv))
  {
    ghost var was := buf[..];
    var i := 0;
    assert SetOf(argv[..0]) == {};
    while i < |argv|
      invariant i <= |argv| && Cut(was, buf[..], SetOf(argv[..i]))
    {
      ghost var mid, done := buf[..], SetOf(argv[..i]);
      Terminate(buf, argv[i]);
      CutTwice(was, mid, buf[..], done, {argv[i]});
      assert done + {argv[i]} == SetOf(argv[..i + 1]);
      i := i + 1;
    }
    assert argv[..i] == argv;
  }

  /** nulterminate(): the ends of all words, and nothing else, are NUL. */
  method NulTerminate(buf: array<char>, c: Cmd<Slice>)
    requires forall w :: w in Words(c) ==> w.eq < buf.Length
    modifies buf
    ensures Cut(old(buf[..]), buf[..], Words(c))
    decreases c
  {
    match c
    case Exec(argv) => TerminateArgs(buf, argv);
    case Redir(d, file, _) =>
      NulTerminate(buf, d);
      ghost var mid := buf[..];
      Terminate(buf, file);
      CutTwice(old(buf[..]), mid, buf[..], Words(d), {file});
    case Pipe(l, r) =>
      NulTerminate(buf, l);
      ghost var mid := buf[..];
      NulTerminate(buf, r);
      CutTwice(old(buf[..]), mid, buf[..], Words(l), Words(r));
    case List(l, r) =>
      NulTerminate(buf, l);
      ghost var mid := buf[..];
      NulTerminate(buf, r);
      CutTwice(old(buf[..]), mid, buf[..], Words(l), Words(r));
    case Back(d) => NulTerminate(buf, d);
  }

  // ------------------------------------------------ reading the words back

  /** The C string that starts at q. */
  function CString(b: string, q: nat): string
    decreases |b| - q
  {
    if q >= |b| || b[q] == '\0' then "" else [b[q]] + CString(b, q + 1)
  }

  lemma {:induction false} CStringIs(b: string, q: nat, e: nat)
    requires q <= e < |b| && b[e] == '\0' && forall k :: q <= k < e ==> b[k] != '\0'
    ensures CString(b, q) == b[q..e]
    decreases e - q
  {
    if q < e {
      CStringIs(b, q + 1, e);
    }
  }

  lemma NoEndInside(s: string, c: Cmd<Slice>, w: Slice, k: nat)
    requires WholeWords(s, c) && w in Words(c) && w.q <= k < w.eq
    ensures !EndsAt(Words(c), k)
  {
    forall v | v in Words(c) ensures v.eq != k {
      assert WordSlice(s, v) && WordSlice(s, w);
    }
  }

  /** After the cut, each word reads as exactly its token: no other cut falls inside it. */
  lemma WordReads(s: string, c: Cmd<Slice>, buf: string, w: Slice)
    requires WholeWords(s, c) && (forall k :: 0 <= k < |s| ==> s[k] != '\0') && Cut(s + ['\0'], buf, Words(c)) &&
             w in Words(c)
    ensures CString(buf, w.q) == s[w.q..w.eq]
  {
    var was := s + ['\0'];
    assert EndsAt(Words(c), w.eq);
    forall k | w.q <= k < w.eq ensures buf[k] == s[k] {
      NoEndInside(s, c, w, k);
    }
    CStringIs(buf, w.q, w.eq);
    assert buf[w.q..w.eq] == s[w.q..w.eq];
  }

  /** parsecmd(): the tree, with every argv and file string in the buffer equal to its token. */
  method ParseCommand(buf: array<char>, s: string) returns (r: Result<Cmd<Slice>>)
    requires buf[..] == s + ['\0'] && forall k :: 0 <= k < |s| ==> s[k] != '\0'
    modifies buf
    ensures r == ParseCmd(s)
    ensures r.Ok? ==> forall w :: w in Words(r.value) ==> CString(buf[..], w.q) == Str(s, w)
  {
    r := ParseCmd(s);
    if r.Ok? {
      LineProper(s, 0);
      ProperWhole(s, r.value);
      assert forall w :: w in Words(r.value) ==> WordSlice(s, w);
      NulTerminate(buf, r.value);
      forall w | w in Words(r.value) ensures CString(buf[..], w.q) == Str(s, w) {
        WordReads(s, r.value, buf[..], w);
      }
    }
  }
}
