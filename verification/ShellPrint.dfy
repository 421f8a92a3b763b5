/** The words and symbols of a line: how they are spelled, which ones a line has, and how gettoken() reads them. */
module ShellPrint {
  import opened Shell

  /** A word, a symbol of one character, or >>. */
  datatype Tok = Word(text: string) | Sym(c: char) | Append

  datatype Toks = Nil | Cons(head: Tok, tail: Toks)

  predicate LegalWord(w: string) {
    w != "" && forall k :: 0 <= k < |w| ==> IsWordChar(w[k])
  }

  predicate LegalTok(t: Tok) {
    match t
    case Word(text) => LegalWord(text)
    case Sym(c) => IsSymbol(c)
    case Append => true
  }

  predicate LegalToks(u: Toks) {
    u.Nil? || (LegalTok(u.head) && LegalToks(u.tail))
  }

  function TextOf(t: Tok): string {
    match t
    case Word(text) => text
    case Sym(c) => [c]
    case Append => ">>"
  }

  function TagOf(t: Tok): char {
    match t
    case Word(_) => 'a'
    case Sym(c) => c
    case Append => '+'
  }

  // ------------------------------------------------ the tokens of a line

  /** A word goes on as long as it can, and > is not followed by another one. */
  predicate EndsAfter(s: string, t: Tok, e: nat) {
    e < |s| ==> match t
                case Word(_) => !IsWordChar(s[e])
                case Sym(c) => c == '>' ==> s[e] != '>'
                case Append => true
  }

  /** Token t stands at q and ends at e. */
  ghost predicate TokAt(s: string, t: Tok, q: nat, e: nat) {
    LegalTok(t) && e == q + |TextOf(t)| <= |s| && s[q..e] == TextOf(t) && EndsAfter(s, t, e)
  }

  /** From i on, the line s consists of space and the tokens u. */
  ghost predicate Lexes(s: string, i: nat, u: Toks)
    decreases u, 1
  {
    i <= |s| && LexesHere(s, SkipSpace(s, i), u)
  }

  ghost predicate LexesHere(s: string, q: nat, u: Toks)
    decreases u, 0
  {
    if u.Nil? then q == |s|
    else var e := q + |TextOf(u.head)|; q < |s| && TokAt(s, u.head, q, e) && Lexes(s, e, u.tail)
  }

  /** There is no space to skip. */
  lemma Skipped(s: string, q: nat)
    requires q <= |s| && (q < |s| ==> !IsSpace(s[q]))
    ensures SkipSpace(s, q) == q
  {
  }

  /** gettoken() reads the token that stands there. */
  lemma TokenRead(s: string, i: nat, t: Tok, q: nat, e: nat)
    requires i <= |s| && q == SkipSpace(s, i) && TokAt(s, t, q, e)
    ensures GetToken(s, i) == Token(TagOf(t), q, e, SkipSpace(s, e)) && q < e
  {
    assert s[q] == TextOf(t)[0];
    match t
    case Word(text) => WordRead(s, q, text, e);
    case Sym(c) =>
    case Append => assert s[q + 1] == s[q..e][1];
  }

  lemma WordRead(s: string, q: nat, text: string, e: nat)
    requires TokAt(s, Word(text), q, e)
    ensures WordEnd(s, q) == e && IsWordChar(s[q])
  {
    assert forall k :: q <= k < e ==> s[k] == text[k - q];
  }

  /** Every character that is not space begins a token. */
  lemma TokenThere(s: string, q: nat) returns (t: Tok, e: nat)
    requires q < |s| && !IsSpace(s[q])
    ensures TokAt(s, t, q, e) && t == (if Tag(s, q) == 'a' then Word(s[q..e]) else if Tag(s, q) == '+' then Append
                                       else Sym(Tag(s, q)))
  {
    e := TokenEnd(s, q);
    if s[q] == '>' && CharAt(s, q + 1) == '>' {
      t := Append;
      assert s[q..e] == [s[q], s[q + 1]];
    } else if IsSymbol(s[q]) {
      t := Sym(s[q]);
      assert |s[q..e]| == 1 && s[q..e][0] == s[q];
    } else {
      t := Word(s[q..e]);
    }
  }

  /** Space in front makes no difference. */
  lemma LexesPast(s: string, i: nat, u: Toks)
    requires i <= |s|
    ensures Lexes(s, i, u) <==> Lexes(s, SkipSpace(s, i), u)
  {
    Skipped(s, SkipSpace(s, i));
  }

  lemma LexCons(s: string, i: nat, q: nat, e: nat, t: Tok, rest: Toks)
    requires i <= |s| && q == SkipSpace(s, i) && q < |s| && TokAt(s, t, q, e) && Lexes(s, e, rest)
    ensures Lexes(s, i, Cons(t, rest))
  {
    assert LexesHere(s, q, Cons(t, rest));
  }

  /** Every line has tokens, */
  lemma {:induction false} LexTotal(s: string, i: nat) returns (u: Toks)
    requires i <= |s|
    ensures Lexes(s, i, u)
    decreases |s| - i
  {
    var q := SkipSpace(s, i);
    if q == |s| {
      u := Nil;
    } else {
      var t, e := TokenThere(s, q);
      var rest := LexTotal(s, e);
      u := Cons(t, rest);
      LexCons(s, i, q, e, t, rest);
    }
  }

  /** The token at a place is determined by the line. */
  lemma TokenOnly(s: string, i: nat, q: nat, t: Tok, e: nat, u: Tok, f: nat)
    requires i <= |s| && SkipSpace(s, i) == q && TokAt(s, t, q, e) && TokAt(s, u, q, f)
    ensures t == u && e == f
  {
    TokenRead(s, i, t, q, e);
    TokenRead(s, i, u, q, f);
    SameTag(t, u);
  }

  lemma SameTag(t: Tok, u: Tok)
    requires LegalTok(t) && LegalTok(u) && TagOf(t) == TagOf(u) && TextOf(t) == TextOf(u)
    ensures t == u
  {
  }

  lemma LexHead(s: string, i: nat, u: Toks) returns (q: nat, e: nat)
    requires Lexes(s, i, u) && u.Cons?
    ensures q == SkipSpace(s, i) && q < |s| && TokAt(s, u.head, q, e) && Lexes(s, e, u.tail)
  {
    q := SkipSpace(s, i);
    e := HeadHere(s, q, u);
  }

  lemma HeadHere(s: string, q: nat, u: Toks) returns (e: nat)
    requires LexesHere(s, q, u) && u.Cons?
    ensures q < |s| && TokAt(s, u.head, q, e) && Lexes(s, e, u.tail)
  {
    e := q + |TextOf(u.head)|;
  }

  /** and only these. */
  lemma {:induction false} LexUnique(s: string, i: nat, u: Toks, v: Toks)
    requires Lexes(s, i, u) && Lexes(s, i, v)
    ensures u == v
    decreases u
  {
    if u.Cons? {
      var q, e := LexHead(s, i, u);
      if v.Cons? {
        var q', f := LexHead(s, i, v);
        TokenOnly(s, i, q, u.head, e, v.head, f);
        LexUnique(s, e, u.tail, v.tail);
      }
    } else if v.Cons? {
      var q, e := LexHead(s, i, v);
    }
  }

  predicate StartsWith(u: Toks, toks: string) {
    u.Cons? && TextOf(u.head) != "" && TextOf(u.head)[0] in toks
  }

  lemma PeekAt(s: string, i: nat, u: Toks, toks: string)
    requires Lexes(s, i, u)
    ensures Peek(s, i, toks) <==> StartsWith(u, toks)
  {
    if u.Cons? {
      var q, e := LexHead(s, i, u);
      assert s[q] == s[q..e][0];
    }
  }

  /** The next token, with the position q where it begins, e where it ends and j where the rest starts. */
  lemma NextToken(s: string, i: nat, u: Toks) returns (q: nat, e: nat, j: nat)
    requires Lexes(s, i, u) && u.Cons?
    ensures GetToken(s, i) == Token(TagOf(u.head), q, e, j) && Lexes(s, j, u.tail) &&
            Str(s, Slice(q, e)) == TextOf(u.head)
    ensures i < j && LegalTok(u.head)
  {
    q, e := LexHead(s, i, u);
    j := SkipSpace(s, e);
    TokenRead(s, i, u.head, q, e);
    LexesPast(s, e, u.tail);
  }

  /** The other way: a token that gettoken() has read, in front of the tokens that it leaves. */
  lemma TokenBefore(s: string, i: nat, t: Token, rest: Toks) returns (tok: Tok)
    requires i <= |s| && t == GetToken(s, i) && t.q < |s| && Lexes(s, t.next, rest)
    ensures Lexes(s, i, Cons(tok, rest)) && TagOf(tok) == t.tag && LegalTok(tok)
    ensures TextOf(tok) == Str(s, Slice(t.q, t.eq))
    ensures t.tag == 'a' ==> tok == Word(Str(s, Slice(t.q, t.eq)))
    ensures t.tag == '+' ==> tok == Append
    ensures t.tag != 'a' && t.tag != '+' ==> tok == Sym(t.tag)
  {
    var e;
    tok, e := TokenThere(s, t.q);
    TokenRead(s, i, tok, t.q, e);
    LexesPast(s, e, rest);
    LexCons(s, i, t.q, e, tok, rest);
  }

  // ------------------------------------------------ spelling them

  /** Tokens with a space after each. */
  function Show(u: Toks): string {
    if u.Nil? then "" else TextOf(u.head) + " " + Show(u.tail)
  }

  lemma TokenHere(pre: string, t: Tok, rest: string, s: string, i: nat, e: nat)
    requires LegalTok(t) && s == pre + TextOf(t) + " " + rest && i == |pre| && e == i + |TextOf(t)|
    ensures TokAt(s, t, i, e) && s[e] == ' ' && SkipSpace(s, i) == i
  {
    var text := TextOf(t);
    assert s[i..e] == text && s[e] == ' ';
    assert s[i] == text[0];
  }

  lemma Regroup(s: string, pre: string, show: string, a: string, b: string, pre1: string)
    requires s == pre + show && show == a + " " + b && pre1 == pre + a + " "
    ensures s == pre + a + " " + b && s == pre1 + b && |pre1| == |pre| + |a| + 1
  {
  }

  /** The tokenizer reads back what Show wrote. */
  lemma {:induction false} ShowLexes(pre: string, u: Toks, s: string)
    requires s == pre + Show(u) && LegalToks(u)
    ensures Lexes(s, |pre|, u)
    decreases u
  {
    if u.Cons? {
      var text, tail := TextOf(u.head), Show(u.tail);
      var pre1 := pre + text + " ";
      Regroup(s, pre, Show(u), text, tail, pre1);
      var i, e := |pre|, |pre| + |text|;
      TokenHere(pre, u.head, tail, s, i, e);
      ShowLexes(pre1, u.tail, s);
      SpaceBefore(s, e, |pre1|, u.tail);
      LexCons(s, i, i, e, u.head, u.tail);
    }
  }

  lemma SpaceBefore(s: string, e: nat, j: nat, u: Toks)
    requires e < |s| && s[e] == ' ' && j == e + 1 && Lexes(s, j, u)
    ensures Lexes(s, e, u)
  {
    assert SkipSpace(s, e) == SkipSpace(s, j);
  }

  // ------------------------------------------------ what the slices say

  function Str(s: string, w: Slice): string {
    if w.q <= w.eq <= |s| then s[w.q..w.eq] else ""
  }

  function Strs(s: string, ws: seq<Slice>): (r: seq<string>)
    ensures |r| == |ws| && forall k :: 0 <= k < |ws| ==> r[k] == Str(s, ws[k])
  {
    seq(|ws|, k requires 0 <= k < |ws| => Str(s, ws[k]))
  }

  function Texts(s: string, c: Cmd<Slice>): Cmd<string> {
    match c
    case Exec(argv) => Exec(Strs(s, argv))
    case Redir(d, file, out) => Redir(Texts(s, d), Str(s, file), out)
    case Pipe(l, r) => Pipe(Texts(s, l), Texts(s, r))
    case List(l, r) => List(Texts(s, l), Texts(s, r))
    case Back(d) => Back(Texts(s, d))
  }

  function RedirTexts(s: string, rs: seq<Redirection<Slice>>): (r: seq<Redirection<string>>)
    ensures |r| == |rs| && forall k :: 0 <= k < |rs| ==> r[k] == Redirection(Str(s, rs[k].file), rs[k].out)
  {
    seq(|rs|, k requires 0 <= k < |rs| => Redirection(Str(s, rs[k].file), rs[k].out))
  }

  lemma {:induction false} WrapTexts(s: string, c: Cmd<Slice>, rs: seq<Redirection<Slice>>)
    ensures Texts(s, Wrap(c, rs)) == Wrap(Texts(s, c), RedirTexts(s, rs))
    decreases |rs|
  {
    if rs != [] {
      var front := rs[..|rs| - 1];
      WrapTexts(s, c, front);
      assert RedirTexts(s, rs)[..|rs| - 1] == RedirTexts(s, front);
    }
  }
}
