/**
 sh.c: the tokenizer and the recursive-descent parser of the shell. The parser builds a tree
 whose words are slices of the input line; positions play the part of the char pointers.
 */
module Shell {

  const MAXARGS := 10

  /** Parsed commands, with words of type T: slices while parsing, strings afterwards. */
  datatype Cmd<T> =
    | Exec(argv: seq<T>)
    | Redir(cmd: Cmd<T>, file: T, out: bool)  // out: O_WRONLY|O_CREATE on fd 1, else O_RDONLY on fd 0
    | Pipe(left: Cmd<T>, right: Cmd<T>)
    | List(first: Cmd<T>, rest: Cmd<T>)
    | Back(job: Cmd<T>)

  /** A word of the line: from q up to eq. */
  datatype Slice = Slice(q: nat, eq: nat)

  datatype Redirection<T> = Redirection(file: T, out: bool)

  // ------------------------------------------------ the tokenizer

  predicate IsSpace(c: char) {
    c == ' ' || c == '\t' || c == '\r' || c == '\n' || c == '\U{0B}'
  }

  predicate IsSymbol(c: char) {
    c == '<' || c == '|' || c == '>' || c == '&' || c == ';' || c == '(' || c == ')'
  }

  predicate IsWordChar(c: char) {
    !IsSpace(c) && !IsSymbol(c)
  }

  /** The line, NUL-terminated. */
  function CharAt(s: string, i: nat): char {
    if i < |s| then s[i] else '\0'
  }

  function SkipSpace(s: string, i: nat): (j: nat)
    requires i <= |s|
    ensures i <= j <= |s| && (j < |s| ==> !IsSpace(s[j])) && forall k :: i <= k < j ==> IsSpace(s[k])
    decreases |s| - i
  {
    if i < |s| && IsSpace(s[i]) then SkipSpace(s, i + 1) else i
  }

  function WordEnd(s: string, i: nat): (j: nat)
    requires i <= |s|
    ensures i <= j <= |s| && (j < |s| ==> !IsWordChar(s[j])) && forall k :: i <= k < j ==> IsWordChar(s[k])
    decreases |s| - i
  {
    if i < |s| && IsWordChar(s[i]) then WordEnd(s, i + 1) else i
  }

  /** What gettoken() returns: its tag ('a' for a word, '+' for >>, NUL at the end), *q, *eq and the new *ps. */
  datatype Token = Token(tag: char, q: nat, eq: nat, next: nat)

  function TokenEnd(s: string, q: nat): (eq: nat)
    requires q <= |s| && (q < |s| ==> !IsSpace(s[q]))
    ensures q <= eq <= |s| && (q < |s| ==> q < eq)
  {
    if q == |s| then q
    else if s[q] == '>' && CharAt(s, q + 1) == '>' then q + 2
    else if IsSymbol(s[q]) then q + 1
    else WordEnd(s, q)
  }

  function Tag(s: string, q: nat): char
    requires q <= |s|
  {
    if q == |s| then '\0'
    else if s[q] == '>' && CharAt(s, q + 1) == '>' then '+'
    else if IsSymbol(s[q]) then s[q]
    else 'a'
  }

  function GetToken(s: string, i: nat): (t: Token)
    requires i <= |s|
    ensures i <= t.q <= t.eq <= t.next <= |s| && (t.tag != '\0' ==> t.q < t.eq)
    ensures t.tag == 'a' ==> WordSlice(s, Slice(t.q, t.eq))
  {
    var q := SkipSpace(s, i);
    var eq := TokenEnd(s, q);
    Token(Tag(s, q), q, eq, SkipSpace(s, eq))
  }

  /** A whole word of the line: it ends where the word characters do. */
  ghost predicate WordSlice(s: string, w: Slice) {
    && w.q < w.eq <= |s| && (w.eq < |s| ==> !IsWordChar(s[w.eq]))
    && forall k :: w.q <= k < w.eq ==> IsWordChar(s[k])
  }

  /** peek(): skips space and tells whether the next character is one of toks. */
  function Peek(s: string, i: nat, toks: string): bool
    requires i <= |s|
  {
    var j := SkipSpace(s, i);
    j < |s| && s[j] in toks
  }

  /** gettoken() with its loops over the line. */
  method ScanToken(s: string, i: nat) returns (t: Token)
    requires i <= |s|
    ensures t == GetToken(s, i)
  {
    var j := ScanSpace(s, i);
    var q, tag := j, CharAt(s, j);
    if j < |s| {
      if tag == '>' {
        j := j + 1;
        if CharAt(s, j) == '>' {
          tag, j := '+', j + 1;
        }
      } else if IsSymbol(tag) {
        j := j + 1;
      } else {
        tag := 'a';
        while j < |s| && IsWordChar(s[j])
          invariant q <= j <= |s| && WordEnd(s, j) == WordEnd(s, q)
        {
          j := j + 1;
        }
      }
    }
    var next := ScanSpace(s, j);
    return Token(tag, q, j, next);
  }

  method ScanSpace(s: string, i: nat) returns (j: nat)
    requires i <= |s|
    ensures j == SkipSpace(s, i)
  {
    j := i;
    while j < |s| && IsSpace(s[j])
      invariant i <= j <= |s| && SkipSpace(s, j) == SkipSpace(s, i)
    {
      j := j + 1;
    }
  }

  // ------------------------------------------------ the parser

  /** A value and the new *ps, or a panic. */
  datatype Result<T> = Ok(value: T, next: nat) | Panic

  ghost predicate Within<T>(r: Result<T>, s: string, i: nat) {
    r.Ok? ==> i <= r.next <= |s|
  }

  /** The redirections rs around c, the first innermost. */
  function Wrap<T>(c: Cmd<T>, rs: seq<Redirection<T>>): Cmd<T> {
    if rs == [] then c else Redir(Wrap(c, rs[..|rs| - 1]), rs[|rs| - 1].file, rs[|rs| - 1].out)
  }

  /** The loop of parseredirs(). */
  function ParseRedirs(s: string, i: nat): (r: Result<seq<Redirection<Slice>>>)
    requires i <= |s|
    ensures Within(r, s, i)
    decreases |s| - i
  {
    if !Peek(s, i, "<>") then Ok([], SkipSpace(s, i))
    else
      var t := GetToken(s, i);
      var w := GetToken(s, t.next);
      if w.tag != 'a' then Panic
      else
        var r := ParseRedirs(s, w.next);
        if r.Panic? then Panic
        else Ok([Redirection(Slice(w.q, w.eq), t.tag != '<')] + r.value, r.next)
  }

  datatype Simple = Simple(argv: seq<Slice>, redirs: seq<Redirection<Slice>>)

  /** The loop of parseexec(). */
  function ParseArgs(s: string, i: nat, argv: seq<Slice>, redirs: seq<Redirection<Slice>>): (r: Result<Simple>)
    requires i <= |s|
    ensures Within(r, s, i)
    decreases |s| - i
  {
    if Peek(s, i, "|)&;") then Ok(Simple(argv, redirs), SkipSpace(s, i))
    else
      var t := GetToken(s, i);
      if t.tag == '\0' then Ok(Simple(argv, redirs), t.next)
      else if t.tag != 'a' || |argv| + 1 >= MAXARGS then Panic
      else
        var r := ParseRedirs(s, t.next);
        if r.Panic? then Panic
        else ParseArgs(s, r.next, argv + [Slice(t.q, t.eq)], redirs + r.value)
  }

  function ParseExec(s: string, i: nat): (r: Result<Cmd<Slice>>)
    requires i <= |s|
    ensures Within(r, s, i)
    decreases |s| - i, 1
  {
    if Peek(s, i, "(") then ParseBlock(s, i)
    else
      var rs := ParseRedirs(s, i);
      if rs.Panic? then Panic
      else
        var a := ParseArgs(s, rs.next, [], rs.value);
        if a.Panic? then Panic else Ok(Wrap(Exec(a.value.argv), a.value.redirs), a.next)
  }

  /** parseblock(), at a parenthesis. */
  function ParseBlock(s: string, i: nat): (r: Result<Cmd<Slice>>)
    requires i <= |s| && Peek(s, i, "(")
    ensures Within(r, s, i)
    decreases |s| - i, 0
  {
    var t := GetToken(s, i);
    var c := ParseLine(s, t.next);
    if c.Panic? || !Peek(s, c.next, ")") then Panic
    else
      var u := GetToken(s, c.next);
      var rs := ParseRedirs(s, u.next);
      if rs.Panic? then Panic else Ok(Wrap(c.value, rs.value), rs.next)
  }

  function ParsePipe(s: string, i: nat): (r: Result<Cmd<Slice>>)
    requires i <= |s|
    ensures Within(r, s, i)
    decreases |s| - i, 2
  {
    var c := ParseExec(s, i);
    if c.Panic? then Panic
    else if !Peek(s, c.next, "|") then Ok(c.value, SkipSpace(s, c.next))
    else
      var t := GetToken(s, c.next);
      var d := ParsePipe(s, t.next);
      if d.Panic? then Panic else Ok(Pipe(c.value, d.value), d.next)
  }

  /** The loop over & in parseline(). */
  function ParseBacks(s: string, i: nat, c: Cmd<Slice>): (r: Result<Cmd<Slice>>)
    requires i <= |s|
    ensures r.Ok? && Within(r, s, i)
    decreases |s| - i
  {
    if Peek(s, i, "&") then ParseBacks(s, GetToken(s, i).next, Back(c)) else Ok(c, SkipSpace(s, i))
  }

  function ParseLine(s: string, i: nat): (r: Result<Cmd<Slice>>)
    requires i <= |s|
    ensures Within(r, s, i)
    decreases |s| - i, 3
  {
    var p := ParsePipe(s, i);
    if p.Panic? then Panic
    else
      var c := ParseBacks(s, p.next, p.value);
      if !Peek(s, c.next, ";") then Ok(c.value, SkipSpace(s, c.next))
      else
        var t := GetToken(s, c.next);
        var d := ParseLine(s, t.next);
        if d.Panic? then Panic else Ok(List(c.value, d.value), d.next)
  }

  /** parsecmd(), up to nulterminate(). */
  function ParseCmd(s: string): Result<Cmd<Slice>> {
    var c := ParseLine(s, 0);
    if c.Panic? || SkipSpace(s, c.next) != |s| then Panic else c
  }
}
