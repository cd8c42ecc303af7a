/**
 Tokens of the shell's command line (user/sh.c, gettoken and peek).

 A command line is a string without NUL; its end stands for the NUL that C finds there.
 */
module ShellTokens {
  import opened Common

  predicate White(c: char) {
    c == ' ' || c == '\t' || c == '\r' || c == '\n' || c == 11 as char
  }

  predicate Symbol(c: char) {
    c == '<' || c == '|' || c == '>' || c == '&' || c == ';' || c == '(' || c == ')'
  }

  /** The two classes in ASCII: tab, line feed, vertical tab, carriage return, space; & ( ) ; < > | */
  lemma CharacterCodes(c: char)
    ensures White(c) <==> c as int in {9, 10, 11, 13, 32}
    ensures Symbol(c) <==> c as int in {38, 40, 41, 59, 60, 62, 124}
    ensures WordChar(c) <==> c as int !in {0, 9, 10, 11, 13, 32, 38, 40, 41, 59, 60, 62, 124}
  {
  }

  predicate WordChar(c: char) {
    !White(c) && !Symbol(c) && c != NUL
  }

  ghost predicate Line(text: string) {
    NUL !in text
  }

  /** What gettoken returns: a symbol, '+' for >> or 'a' for a word, and where the token is. */
  datatype Token = Token(kind: char, start: nat, end: nat)

  function Skip(text: string, s: nat): (r: nat)
    requires s <= |text|
    ensures s <= r <= |text| && (r < |text| ==> !White(text[r]))
    ensures forall j :: s <= j < r ==> White(text[j])
    decreases |text| - s
  {
    if s < |text| && White(text[s]) then Skip(text, s + 1) else s
  }

  function WordEnd(text: string, s: nat): (r: nat)
    requires s <= |text|
    ensures s <= r <= |text| && (r < |text| ==> White(text[r]) || Symbol(text[r]))
    ensures forall j :: s <= j < r ==> !White(text[j]) && !Symbol(text[j])
    decreases |text| - s
  {
    if s < |text| && !White(text[s]) && !Symbol(text[s]) then WordEnd(text, s + 1) else s
  }

  function TokenAt(text: string, s: nat): (r: Token)
    requires s < |text| && !White(text[s])
    ensures r.start == s < r.end <= |text|
  {
    if text[s] == '>' && s + 1 < |text| && text[s + 1] == '>' then Token('+', s, s + 2)
    else if Symbol(text[s]) then Token(text[s], s, s + 1)
    else Token('a', s, WordEnd(text, s))
  }

  /** The tokens from s on. */
  function Tokens(text: string, s: nat): seq<Token>
    requires s <= |text|
    decreases |text| - s
  {
    var b := Skip(text, s);
    if b == |text| then [] else [TokenAt(text, b)] + Tokens(text, TokenAt(text, b).end)
  }

  /** A word is as long as it can be: its end is the end of the line, a blank or a symbol. */
  predicate Delimiter(text: string, i: nat) {
    i == |text| || (i < |text| && (White(text[i]) || Symbol(text[i])))
  }

  predicate WordAt(text: string, q: nat, eq: nat) {
    q < eq <= |text| && Delimiter(text, eq) && forall j :: q <= j < eq ==> WordChar(text[j])
  }

  ghost predicate TokenOk(text: string, t: Token) {
    && t.start < t.end <= |text|
    && (t.kind == 'a' <==> WordChar(text[t.start]))
    && (t.kind == 'a' ==> WordAt(text, t.start, t.end))
    && (t.kind != 'a' ==>
        t.kind == (if t.kind == '+' then '+' else text[t.start]) && Symbol(text[t.start]) && t.kind != NUL)
    && (t.kind == '+' ==> text[t.start] == '>')
  }

  ghost predicate TokensOk(text: string, ts: seq<Token>) {
    forall i :: 0 <= i < |ts| ==> TokenOk(text, ts[i])
  }

  lemma {:induction false} TokensAreOk(text: string, s: nat)
    requires Line(text) && s <= |text|
    ensures TokensOk(text, Tokens(text, s))
    decreases |text| - s
  {
    var b := Skip(text, s);
    if b < |text| {
      TokensAreOk(text, TokenAt(text, b).end);
    }
  }

  lemma SkipAgain(text: string, s: nat)
    requires s <= |text|
    ensures Skip(text, Skip(text, s)) == Skip(text, s) && Tokens(text, Skip(text, s)) == Tokens(text, s)
  {
  }

  method SkipWhite(text: string, s: nat) returns (r: nat)
    requires s <= |text|
    ensures r == Skip(text, s)
  {
    r := s;
    while r < |text| && White(text[r])
      invariant s <= r <= |text| && Skip(text, r) == Skip(text, s)
    {
      r := r + 1;
    }
  }

  /** peek: skip blanks, and say whether the next token starts with one of the characters. */
  method Peek(text: string, s: nat, toks: string) returns (yes: bool, r: nat)
    requires s <= |text|
    ensures s <= r <= |text| && Tokens(text, r) == Tokens(text, s)
    ensures yes <==> Tokens(text, s) != [] && text[Tokens(text, s)[0].start] in toks
    ensures Tokens(text, s) == [] <==> r == |text|
  {
    r := SkipWhite(text, s);
    SkipAgain(text, s);
    yes := r < |text| && text[r] in toks;
  }

  /** gettoken: the next token, and the place after it and the blanks behind it; NUL at the end. */
  method GetToken(text: string, s: nat) returns (tok: Token, r: nat)
    requires s <= |text|
    ensures s <= r <= |text|
    ensures Tokens(text, s) == [] ==> tok == Token(NUL, |text|, |text|) && r == |text| && Tokens(text, r) == []
    ensures Tokens(text, s) != [] ==> s < r && tok == Tokens(text, s)[0] && Tokens(text, r) == Tokens(text, s)[1..]
  {
    var q := SkipWhite(text, s);
    var e := q;
    if q == |text| {
      return Token(NUL, q, q), q;
    }
    var kind := text[q];
    if text[q] == '>' {
      e := e + 1;
      if e < |text| && text[e] == '>' {
        kind, e := '+', e + 1;
      }
    } else if Symbol(text[q]) {
      e := e + 1;
    } else {
      kind := 'a';
      while e < |text| && !White(text[e]) && !Symbol(text[e])
        invariant q <= e <= |text| && WordEnd(text, e) == WordEnd(text, q)
      {
        e := e + 1;
      }
    }
    tok := Token(kind, q, e);
    assert tok == TokenAt(text, q);
    r := SkipWhite(text, e);
    SkipAgain(text, e);
  }

  // ---------------------------------------------------------------------- writing tokens out

  /** What a token says, without its place. */
  datatype Lex = Sym(c: char) | Word(w: string)

  predicate LexOk(x: Lex) {
    match x
    case Sym(c) => Symbol(c) || c == '+'
    case Word(w) => w != "" && forall j :: 0 <= j < |w| ==> WordChar(w[j])
  }

  function Spelling(x: Lex): string {
    match x
    case Sym(c) => if c == '+' then ">>" else [c]
    case Word(w) => w
  }

  /** Each token followed by a blank. */
  function Render(xs: seq<Lex>): string {
    if xs == [] then "" else Spelling(xs[0]) + " " + Render(xs[1..])
  }

  /** The token t of the text says x. */
  ghost predicate Says(text: string, t: Token, x: Lex) {
    && t.start < t.end <= |text|
    && match x
       case Sym(c) => t.kind == c
       case Word(w) => t.kind == 'a' && text[t.start..t.end] == w
  }

  ghost predicate SayAll(text: string, ts: seq<Token>, xs: seq<Lex>) {
    |ts| == |xs| && forall i :: 0 <= i < |xs| ==> Says(text, ts[i], xs[i])
  }

  lemma SkipIs(text: string, s: nat, r: nat)
    requires s <= r <= |text| && (forall j :: s <= j < r ==> White(text[j])) && (r < |text| ==> !White(text[r]))
    ensures Skip(text, s) == r
  {
  }

  lemma WordEndIs(text: string, s: nat, r: nat)
    requires s <= r < |text| && (forall j :: s <= j < r ==> WordChar(text[j])) && White(text[r])
    ensures WordEnd(text, s) == r
  {
  }

  /** A symbol written at s and followed by a blank. */
  lemma FirstSymbol(text: string, s: nat, c: char)
    requires (Symbol(c) || c == '+') && s + |Spelling(Sym(c))| < |text|
    requires forall j :: 0 <= j < |Spelling(Sym(c))| ==> text[s + j] == Spelling(Sym(c))[j]
    requires text[s + |Spelling(Sym(c))|] == ' '
    ensures !White(text[s]) && TokenAt(text, s) == Token(c, s, s + |Spelling(Sym(c))|)
  {
    hide WordEnd;
    assert text[s] == Spelling(Sym(c))[0];
    if c == '+' {
      assert text[s + 1] == Spelling(Sym(c))[1];
    }
  }

  /** A word written at s and followed by a blank. */
  lemma FirstWord(text: string, s: nat, w: string)
    requires LexOk(Word(w)) && s + |w| < |text| && (forall j :: 0 <= j < |w| ==> text[s + j] == w[j])
    requires text[s + |w|] == ' '
    ensures !White(text[s]) && TokenAt(text, s) == Token('a', s, s + |w|)
  {
    forall j | s <= j < s + |w| ensures WordChar(text[j]) {
      assert text[s + (j - s)] == w[j - s];
    }
    WordEndIs(text, s, s + |w|);
  }

  /** A token written at s and followed by a blank is the token found there. */
  lemma FirstToken(text: string, s: nat, x: Lex)
    requires LexOk(x) && s + |Spelling(x)| < |text| && text[s..s + |Spelling(x)|] == Spelling(x)
    requires text[s + |Spelling(x)|] == ' '
    ensures !White(text[s]) && TokenAt(text, s).end == s + |Spelling(x)| && Says(text, TokenAt(text, s), x)
    ensures Tokens(text, s) == [TokenAt(text, s)] + Tokens(text, s + |Spelling(x)| + 1)
  {
    hide TokenAt, WordEnd;
    var w := Spelling(x);
    forall j | 0 <= j < |w| ensures text[s + j] == w[j] {
      assert text[s..s + |w|][j] == w[j];
    }
    if x.Word? {
      FirstWord(text, s, x.w);
    } else {
      FirstSymbol(text, s, x.c);
    }
    SkipIs(text, s, s);
    SkipBlank(text, s + |w|);
  }

  lemma Regroup(before: string, w: string, rest: string)
    ensures before + (w + " " + rest) == before + w + " " + rest
    ensures (before + w + " " + rest)[|before|..|before| + |w|] == w && (before + w + " " + rest)[|before| + |w|] == ' '
  {
  }

  lemma SayCons(text: string, t: Token, ts: seq<Token>, xs: seq<Lex>)
    requires xs != [] && Says(text, t, xs[0]) && SayAll(text, ts, xs[1..])
    ensures SayAll(text, [t] + ts, xs)
  {
    hide Says;
    forall i | 0 <= i < |xs| ensures Says(text, ([t] + ts)[i], xs[i]) {
      if i > 0 {
        assert xs[1..][i - 1] == xs[i];
      }
    }
  }

  /** Reading back what was written gives the same tokens. */
  lemma {:induction false} TokensOfRender(before: string, xs: seq<Lex>)
    requires forall i :: 0 <= i < |xs| ==> LexOk(xs[i])
    ensures SayAll(before + Render(xs), Tokens(before + Render(xs), |before|), xs)
    decreases |xs|
  {
    hide Tokens, TokenAt, Spelling, SayAll, LexOk;
    var text, s := before + Render(xs), |before|;
    if xs != [] {
      var w := Spelling(xs[0]);
      Regroup(before, w, Render(xs[1..]));
      assert LexOk(xs[0]);
      FirstToken(text, s, xs[0]);
      TokensOfRender(before + w + " ", xs[1..]);
      SayCons(text, TokenAt(text, s), Tokens(text, s + |w| + 1), xs);
    } else {
      assert text == before;
      NoTokens(text);
    }
  }

  lemma NoTokens(text: string)
    ensures SayAll(text, Tokens(text, |text|), [])
  {
  }

  lemma SkipBlank(text: string, s: nat)
    requires s < |text| && White(text[s])
    ensures Tokens(text, s) == Tokens(text, s + 1)
  {
  }
}
