/**
 The regular-expression matcher of grep.c, proved equal to the textbook
 denotation of the pattern it is given.

 A C string is modelled by the sequence of its characters before the NUL, so
 `*p == '\0'` becomes "nothing is left".
 */
module Grep {

  /** Regular expressions over characters, and the language each denotes. */
  datatype Regex =
    | Epsilon
    | Literal(c: char)
    | Any
    | Cat(left: Regex, right: Regex)
    | Star(body: Regex)

  ghost predicate InLanguage(r: Regex, s: string)
    decreases r, |s|
  {
    match r
    case Epsilon => s == []
    case Literal(c) => s == [c]
    case Any => |s| == 1
    case Cat(a, b) => exists k :: 0 <= k <= |s| && InLanguage(a, s[..k]) && InLanguage(b, s[k..])
    case Star(a) =>
      || s == []
      || exists k :: 0 < k <= |s| && InLanguage(a, s[..k]) && InLanguage(r, s[k..])
  }

  /** What a pattern says: its expression, and whether it ends in the anchor `$`. */
  datatype Pattern = Pattern(body: Regex, anchoredEnd: bool)

  function Atom(c: char): Regex {
    if c == '.' then Any else Literal(c)
  }

  function Prefixed(c: char, p: Pattern): Pattern {
    Pattern(Cat(Atom(c), p.body), p.anchoredEnd)
  }

  function Starred(c: char, p: Pattern): Pattern {
    Pattern(Cat(Star(Atom(c)), p.body), p.anchoredEnd)
  }

  /** The concrete syntax, read from left to right (after any leading `^`). */
  function Compile(re: string): Pattern {
    if re == [] then
      Pattern(Epsilon, false)
    else if |re| >= 2 && re[1] == '*' then
      var rest := Compile(re[2..]);
      Starred(re[0], rest)
    else if re == "$" then
      Pattern(Epsilon, true)
    else
      var rest := Compile(re[1..]);
      Prefixed(re[0], rest)
  }

  /** Some prefix of `text`, all of it when the pattern is anchored, is in the language. */
  ghost predicate MatchesPrefix(p: Pattern, text: string) {
    exists j :: 0 <= j <= |text| && InLanguage(p.body, text[..j]) && (p.anchoredEnd ==> j == |text|)
  }

  /** The specification of match(): a substring lies in the language, at the start if `^` leads. */
  ghost predicate MatchesSomewhere(re: string, text: string) {
    if re != [] && re[0] == '^' then
      MatchesPrefix(Compile(re[1..]), text)
    else
      exists i :: 0 <= i <= |text| && MatchesPrefix(Compile(re), text[i..])
  }

  ghost predicate AtomMatches(c: char, d: char) {
    c == '.' || c == d
  }

  lemma AtomLanguage(c: char, s: string)
    ensures InLanguage(Atom(c), s) <==> |s| == 1 && AtomMatches(c, s[0])
  {
  }

  lemma CatIntro(a: Regex, b: Regex, x: string, y: string)
    requires InLanguage(a, x) && InLanguage(b, y)
    ensures InLanguage(Cat(a, b), x + y)
  {
    var s := x + y;
    assert s[..|x|] == x && s[|x|..] == y;
  }

  lemma CatElim(a: Regex, b: Regex, s: string) returns (x: string, y: string)
    requires InLanguage(Cat(a, b), s)
    ensures s == x + y && InLanguage(a, x) && InLanguage(b, y)
  {
    var k :| 0 <= k <= |s| && InLanguage(a, s[..k]) && InLanguage(b, s[k..]);
    x, y := s[..k], s[k..];
  }

  lemma StarIntro(c: char, d: char, s: string)
    requires AtomMatches(c, d) && InLanguage(Star(Atom(c)), s)
    ensures InLanguage(Star(Atom(c)), [d] + s)
  {
    var t := [d] + s;
    assert t[..1] == [d] && t[1..] == s;
    AtomLanguage(c, [d]);
  }

  lemma StarElim(c: char, s: string)
    requires InLanguage(Star(Atom(c)), s) && s != []
    ensures AtomMatches(c, s[0]) && InLanguage(Star(Atom(c)), s[1..])
  {
    var k :| 0 < k <= |s| && InLanguage(Atom(c), s[..k]) && InLanguage(Star(Atom(c)), s[k..]);
    AtomLanguage(c, s[..k]);
  }

  lemma PrefixIntro(p: Pattern, s: string, rest: string)
    requires InLanguage(p.body, s) && (p.anchoredEnd ==> rest == [])
    ensures MatchesPrefix(p, s + rest)
  {
    assert (s + rest)[..|s|] == s;
  }

  lemma PrefixElim(p: Pattern, text: string) returns (s: string, rest: string)
    requires MatchesPrefix(p, text)
    ensures text == s + rest && InLanguage(p.body, s) && (p.anchoredEnd ==> rest == [])
  {
    var j :| 0 <= j <= |text| && InLanguage(p.body, text[..j]) && (p.anchoredEnd ==> j == |text|);
    s, rest := text[..j], text[j..];
  }

  /** A pattern that begins with an ordinary character matches by consuming one character. */
  lemma PrefixCat(c: char, p: Pattern, text: string)
    ensures MatchesPrefix(Prefixed(c, p), text)
       <==> text != [] && AtomMatches(c, text[0]) && MatchesPrefix(p, text[1..])
  {
    if MatchesPrefix(Prefixed(c, p), text) {
      var s, rest := PrefixElim(Prefixed(c, p), text);
      var x, y := CatElim(Atom(c), p.body, s);
      AtomLanguage(c, x);
      PrefixIntro(p, y, rest);
      assert text[1..] == y + rest;
    }
    if text != [] && AtomMatches(c, text[0]) && MatchesPrefix(p, text[1..]) {
      var y, rest := PrefixElim(p, text[1..]);
      AtomLanguage(c, [text[0]]);
      CatIntro(Atom(c), p.body, [text[0]], y);
      PrefixIntro(Prefixed(c, p), [text[0]] + y, rest);
      assert text == [text[0]] + y + rest;
    }
  }

  /** A starred item either matches nothing or consumes one character and stays. */
  lemma PrefixStar(c: char, p: Pattern, text: string)
    ensures MatchesPrefix(Starred(c, p), text)
       <==> || MatchesPrefix(p, text)
            || (text != [] && AtomMatches(c, text[0]) && MatchesPrefix(Starred(c, p), text[1..]))
  {
    if MatchesPrefix(Starred(c, p), text) {
      StarUnfold(c, p, text);
    }
    if MatchesPrefix(p, text) {
      StarNone(c, p, text);
    }
    if text != [] && AtomMatches(c, text[0]) && MatchesPrefix(Starred(c, p), text[1..]) {
      StarMore(c, p, text);
    }
  }

  lemma StarUnfold(c: char, p: Pattern, text: string)
    requires MatchesPrefix(Starred(c, p), text)
    ensures || MatchesPrefix(p, text)
            || (text != [] && AtomMatches(c, text[0]) && MatchesPrefix(Starred(c, p), text[1..]))
  {
    var s, rest := PrefixElim(Starred(c, p), text);
    var x, y := CatElim(Star(Atom(c)), p.body, s);
    if x == [] {
      assert y + rest == text;
      PrefixIntro(p, y, rest);
    } else {
      StarElim(c, x);
      CatIntro(Star(Atom(c)), p.body, x[1..], y);
      PrefixIntro(Starred(c, p), x[1..] + y, rest);
      assert text[1..] == x[1..] + y + rest;
    }
  }

  lemma StarNone(c: char, p: Pattern, text: string)
    requires MatchesPrefix(p, text)
    ensures MatchesPrefix(Starred(c, p), text)
  {
    var s, rest := PrefixElim(p, text);
    assert InLanguage(Star(Atom(c)), []);
    CatIntro(Star(Atom(c)), p.body, [], s);
    assert [] + s == s;
    PrefixIntro(Starred(c, p), s, rest);
  }

  lemma StarMore(c: char, p: Pattern, text: string)
    requires text != [] && AtomMatches(c, text[0]) && MatchesPrefix(Starred(c, p), text[1..])
    ensures MatchesPrefix(Starred(c, p), text)
  {
    var s, rest := PrefixElim(Starred(c, p), text[1..]);
    var x, y := CatElim(Star(Atom(c)), p.body, s);
    StarIntro(c, text[0], x);
    CatIntro(Star(Atom(c)), p.body, [text[0]] + x, y);
    PrefixIntro(Starred(c, p), [text[0]] + x + y, rest);
    assert text == [text[0]] + x + y + rest;
  }

  lemma PrefixEmpty(anchored: bool, text: string)
    ensures MatchesPrefix(Pattern(Epsilon, anchored), text) <==> (anchored ==> text == [])
  {
    if !anchored || text == [] {
      assert InLanguage(Epsilon, text[..0]);
    }
  }

  /** matchhere(): search for re at the beginning of text. */
  method MatchHere(re: string, text: string) returns (found: bool)
    ensures found <==> MatchesPrefix(Compile(re), text)
    decreases |re|, 0
  {
    if re == [] {
      PrefixEmpty(false, text);
      return true;
    }
    if |re| >= 2 && re[1] == '*' {
      found := MatchStar(re[0], re[2..], text);
      return;
    }
    if re == "$" {
      PrefixEmpty(true, text);
      return text == [];
    }
    PrefixCat(re[0], Compile(re[1..]), text);
    if text != [] && (re[0] == '.' || re[0] == text[0]) {
      found := MatchHere(re[1..], text[1..]);
      return;
    }
    return false;
  }

  /** matchstar(): search for c*re at the beginning of text. */
  method MatchStar(c: char, re: string, text: string) returns (found: bool)
    ensures found <==> MatchesPrefix(Starred(c, Compile(re)), text)
    decreases |re|, 1
  {
    ghost var starred := Starred(c, Compile(re));
    var rest := text;
    while true
      invariant MatchesPrefix(starred, text) <==> MatchesPrefix(starred, rest)
      decreases |rest|
    {
      PrefixStar(c, Compile(re), rest);
      found := MatchHere(re, rest);
      if found {
        return true;
      }
      if !(rest != [] && (rest[0] == c || c == '.')) {
        return false;
      }
      rest := rest[1..];
    }
  }

  /** match(): re anywhere in text, or only at its start when re begins with `^`. */
  method Match(re: string, text: string) returns (found: bool)
    ensures found <==> MatchesSomewhere(re, text)
  {
    if re != [] && re[0] == '^' {
      found := MatchHere(re[1..], text);
      return;
    }
    var i := 0;
    while true
      invariant 0 <= i <= |text|
      invariant forall h :: 0 <= h < i ==> !MatchesPrefix(Compile(re), text[h..])
      decreases |text| - i
    {
      found := MatchHere(re, text[i..]);
      if found {
        return true;
      }
      if i == |text| {
        return false;
      }
      i := i + 1;
    }
  }
}
