/**
 Command trees written out and read back, and nulterminate (user/sh.c).
 */
module ShellRoundTrip {
  import opened Common
  import opened ShellTokens
  import opened Shell

  // ------------------------------------------------------------------------- trees of words

  function Text(text: string, s: Span): string {
    if s.q <= s.eq <= |text| then text[s.q..s.eq] else ""
  }

  function Texts(text: string, ss: seq<Span>): (r: seq<string>)
    ensures |r| == |ss| && forall i :: 0 <= i < |ss| ==> r[i] == Text(text, ss[i])
  {
    seq(|ss|, (i: nat) requires i < |ss| => Text(text, ss[i]))
  }

  function RedirText(text: string, r: Redir<Span>): Redir<string> {
    Redir(Text(text, r.file), r.mode, r.fd)
  }

  function RedirTexts(text: string, rs: seq<Redir<Span>>): (r: seq<Redir<string>>)
    ensures |r| == |rs| && forall i :: 0 <= i < |rs| ==> r[i] == RedirText(text, rs[i])
  {
    seq(|rs|, (i: nat) requires i < |rs| => RedirText(text, rs[i]))
  }

  /** The tree with each span replaced by the word it covers. */
  function Words(text: string, c: Cmd<Span>): Cmd<string> {
    match c
    case Exec(argv) => Exec(Texts(text, argv))
    case Redirected(d, r) => Redirected(Words(text, d), RedirText(text, r))
    case Pipe(l, r) => Pipe(Words(text, l), Words(text, r))
    case List(l, r) => List(Words(text, l), Words(text, r))
    case Back(d) => Back(Words(text, d))
  }

  predicate WordOk(w: string) {
    LexOk(Word(w))
  }

  predicate RedirOk(r: Redir<string>) {
    WordOk(r.file) && r == RedirOf(KindOf(r), r.file)
  }

  function KindOf(r: Redir<string>): char {
    if r.mode == O_RDONLY then '<' else if r.mode == O_WRONLY + O_CREATE + O_TRUNC then '>' else '+'
  }

  /** Words are not empty and free of blanks, symbols and NUL. */
  predicate TreeOk(t: Cmd<string>) {
    match t
    case Exec(argv) => forall i :: 0 <= i < |argv| ==> WordOk(argv[i])
    case Redirected(d, r) => TreeOk(d) && RedirOk(r)
    case Pipe(l, r) => TreeOk(l) && TreeOk(r)
    case List(l, r) => TreeOk(l) && TreeOk(r)
    case Back(d) => TreeOk(d)
  }

  predicate Short<W>(t: Cmd<W>) {
    match t
    case Exec(argv) => |argv| < MAXARGS
    case Redirected(d, r) => Short(d)
    case Pipe(l, r) => Short(l) && Short(r)
    case List(l, r) => Short(l) && Short(r)
    case Back(d) => Short(d)
  }

  // ----------------------------------------------------------------------- writing a tree out

  function Size(t: Cmd<string>): nat {
    match t
    case Exec(argv) => 1
    case Redirected(d, r) => 1 + Size(d)
    case Pipe(l, r) => 1 + Size(l) + Size(r)
    case List(l, r) => 1 + Size(l) + Size(r)
    case Back(d) => 1 + Size(d)
  }

  /** A command without its redirections, and these, the first one first. */
  function Base(t: Cmd<string>): (b: Cmd<string>)
    ensures !b.Redirected? && (if t.Redirected? then Size(b) < Size(t) else b == t)
    ensures TreeOk(t) ==> TreeOk(b)
    ensures Short(t) <==> Short(b)
  {
    if t.Redirected? then Base(t.cmd) else t
  }

  function Redirs(t: Cmd<string>): (rs: seq<Redir<string>>)
    ensures TreeOk(t) ==> forall i :: 0 <= i < |rs| ==> RedirOk(rs[i])
  {
    if t.Redirected? then Redirs(t.cmd) + [t.redir] else []
  }

  function PrintWords(ws: seq<string>): seq<Lex> {
    if ws == [] then [] else [Word(ws[0])] + PrintWords(ws[1..])
  }

  function PrintRedir(r: Redir<string>): (xs: seq<Lex>)
    ensures |xs| == 2
  {
    [Sym(KindOf(r)), Word(r.file)]
  }

  function PrintRedirs(rs: seq<Redir<string>>): seq<Lex> {
    if rs == [] then [] else PrintRedir(rs[0]) + PrintRedirs(rs[1..])
  }

  function Rank(t: Cmd<string>, list: nat, pipe: nat, back: nat, other: nat): nat {
    match t
    case List(_, _) => list
    case Pipe(_, _) => pipe
    case Back(_) => back
    case _ => other
  }

  function PrintLine(t: Cmd<string>): seq<Lex>
    decreases Size(t), Rank(t, 0, 2, 1, 3)
  {
    if t.List? then PrintBack(t.left) + [Sym(';')] + PrintLine(t.right) else PrintBack(t)
  }

  function PrintBack(t: Cmd<string>): seq<Lex>
    decreases Size(t), Rank(t, 3, 1, 0, 2)
  {
    if t.Back? then PrintBack(t.cmd) + [Sym('&')] else PrintPipe(t)
  }

  function PrintPipe(t: Cmd<string>): seq<Lex>
    decreases Size(t), Rank(t, 2, 0, 3, 1)
  {
    if t.Pipe? then PrintExec(t.left) + [Sym('|')] + PrintPipe(t.right) else PrintExec(t)
  }

  function PrintExec(t: Cmd<string>): seq<Lex>
    decreases Size(t), Rank(t, 1, 3, 2, 0)
  {
    var b := Base(t);
    if b.Exec? then PrintArgs(b.argv, Redirs(t))
    else [Sym('(')] + PrintLine(b) + [Sym(')')] + PrintRedirs(Redirs(t))
  }

  /** The command line that stands for a tree. */
  function Print(t: Cmd<string>): string {
    Render(PrintLine(t))
  }

  // --------------------------------------------------------------------------- reading it back

  /** The tokens ts begin with what xs says. */
  ghost predicate Reads(text: string, ts: seq<Token>, xs: seq<Lex>) {
    |xs| <= |ts| && forall i :: 0 <= i < |xs| ==> Says(text, ts[i], xs[i])
  }

  lemma ReadsSplit(text: string, ts: seq<Token>, a: seq<Lex>, b: seq<Lex>)
    requires Reads(text, ts, a + b)
    ensures |a| + |b| <= |ts| && Reads(text, ts, a) && Reads(text, ts[|a|..], b)
    ensures ts[|a|..][|b|..] == ts[|a + b|..]
  {
    forall i | 0 <= i < |a| ensures Says(text, ts[i], a[i]) {
      assert (a + b)[i] == a[i];
    }
    forall i | 0 <= i < |b| ensures Says(text, ts[|a|..][i], b[i]) {
      assert (a + b)[|a| + i] == b[i];
    }
  }

  /** What may come after a command: nothing, or an operator that ends it. */
  ghost predicate Follow(ts: seq<Token>, kinds: string) {
    ts == [] || ts[0].kind in kinds
  }

  ghost predicate Parsed(text: string, res: Result<Cmd<Span>>, t: Cmd<string>, rest: seq<Token>) {
    res.Ok? && res.rest == rest && Words(text, res.value) == t
  }

  lemma FirstRedir(text: string, ts: seq<Token>, r: Redir<string>)
    requires Reads(text, ts, PrintRedir(r)) && RedirOk(r)
    ensures |ts| >= 2 && Starts(ts, "<>+") && ts[1].kind == 'a'
    ensures RedirText(text, RedirOf(ts[0].kind, SpanOf(ts[1]))) == r
  {
    assert Says(text, ts[0], PrintRedir(r)[0]) && Says(text, ts[1], PrintRedir(r)[1]);
  }

  lemma RedirTextsCons(text: string, x: Redir<Span>, rs: seq<Redir<Span>>)
    ensures RedirTexts(text, [x] + rs) == [RedirText(text, x)] + RedirTexts(text, rs)
    ensures RedirTexts(text, []) == []
  {
  }

  lemma {:induction false} RedirsBack(text: string, ts: seq<Token>, rs: seq<Redir<string>>)
    requires Reads(text, ts, PrintRedirs(rs)) && !Starts(ts[|PrintRedirs(rs)|..], "<>+")
    requires RedirsOk(rs)
    ensures var res := ParseRedirs(ts);
            res.Ok? && res.rest == ts[|PrintRedirs(rs)|..] && RedirTexts(text, res.value) == rs
    decreases |rs|
  {
    hide RedirOk, Starts, RedirOf, RedirText, PrintRedir, Reads, RedirTexts;
    if rs == [] {
      assert ts[0..] == ts;
      RedirTextsCons(text, Redir(Span(0, 0), 0, 0), []);
    } else {
      ReadsSplit(text, ts, PrintRedir(rs[0]), PrintRedirs(rs[1..]));
      FirstRedir(text, ts, rs[0]);
      RedirsBack(text, ts[2..], rs[1..]);
      RedirTextsCons(text, RedirOf(ts[0].kind, SpanOf(ts[1])), ParseRedirs(ts[2..]).value);
    }
  }

  /** A row of words and redirections as it is printed. */
  function PrintArgs(argv: seq<string>, rs: seq<Redir<string>>): seq<Lex> {
    PrintWords(argv) + PrintRedirs(rs)
  }

  lemma PrintArgsCons(argv: seq<string>, rs: seq<Redir<string>>)
    requires argv != []
    ensures PrintArgs(argv, rs) == [Word(argv[0])] + PrintArgs(argv[1..], rs)
  {
  }

  lemma PrintArgsNil(rs: seq<Redir<string>>)
    ensures PrintArgs([], rs) == PrintRedirs(rs)
  {
  }

  ghost predicate ArgsParsed(text: string, args: seq<Span>, redirs: seq<Redir<Span>>, argv: seq<string>,
          rs: seq<Redir<string>>) {
    Texts(text, args) == argv && RedirTexts(text, redirs) == rs
  }

  lemma ArgsParsedCons(text: string, s: Span, args: seq<Span>, redirs: seq<Redir<Span>>, argv: seq<string>,
          rs: seq<Redir<string>>)
    requires argv != [] && Text(text, s) == argv[0] && ArgsParsed(text, args, redirs, argv[1..], rs)
    ensures ArgsParsed(text, [s] + args, redirs, argv, rs)
  {
    assert Texts(text, [s] + args) == [argv[0]] + argv[1..];
  }

  ghost predicate RedirsOk(rs: seq<Redir<string>>) {
    forall i :: 0 <= i < |rs| ==> RedirOk(rs[i])
  }

  lemma {:induction false} ArgsBack(text: string, ts: seq<Token>, argv: seq<string>, rs: seq<Redir<string>>, argc: nat)
    requires Reads(text, ts, PrintArgs(argv, rs)) && (argv == [] ==> rs == []) && argc + |argv| < MAXARGS
    requires Follow(ts[|PrintArgs(argv, rs)|..], "|)&;") && RedirsOk(rs)
    ensures var res := ParseArgs(ts, argc);
            res.Ok? && res.rest == ts[|PrintArgs(argv, rs)|..] && ArgsParsed(text, res.value.0, res.value.1, argv, rs)
    decreases |argv|, 0
  {
    hide RedirsOk, PrintWords, PrintRedirs, PrintArgs, Reads, ArgsParsed, ParseRedirs, Text;
    if argv == [] {
      PrintArgsNil(rs);
      NoRedirs(text, ts);
    } else {
      PrintArgsCons(argv, rs);
      ReadsSplit(text, ts, [Word(argv[0])], PrintArgs(argv[1..], rs));
      FirstWord(text, ts, argv[0]);
      ArgsTail(text, ts[1..], argv[1..], rs, argc + 1);
      var redirs := ParseRedirs(ts[1..]);
      var res := ParseArgs(redirs.rest, argc + 1);
      ArgsParsedCons(text, SpanOf(ts[0]), res.value.0, redirs.value + res.value.1, argv, rs);
    }
  }

  lemma NoRedirs(text: string, ts: seq<Token>)
    ensures PrintRedirs([]) == [] && ts[0..] == ts && ArgsParsed(text, [], [], [], [])
  {
  }

  lemma FirstWord(text: string, ts: seq<Token>, w: string)
    requires Reads(text, ts, [Word(w)])
    ensures ts != [] && ts[0].kind == 'a' && Text(text, SpanOf(ts[0])) == w
  {
    assert Says(text, ts[0], [Word(w)][0]);
  }

  /** After an argument: its redirections, if it is the last one, and the arguments left. */
  lemma {:induction false} ArgsTail(text: string, ts: seq<Token>, argv: seq<string>, rs: seq<Redir<string>>, argc: nat)
    requires Reads(text, ts, PrintArgs(argv, rs)) && argc + |argv| < MAXARGS
    requires Follow(ts[|PrintArgs(argv, rs)|..], "|)&;") && RedirsOk(rs)
    ensures var redirs := ParseRedirs(ts);
            redirs.Ok? && (var res := ParseArgs(redirs.rest, argc);
                           && res.Ok? && res.rest == ts[|PrintArgs(argv, rs)|..]
                           && ArgsParsed(text, res.value.0, redirs.value + res.value.1, argv, rs))
    decreases |argv|, 1
  {
    if argv == [] {
      PrintArgsNil(rs);
      RedirsBack(text, ts, rs);
      assert ParseRedirs(ts).value + [] == ParseRedirs(ts).value;
    } else {
      hide RedirsOk, PrintArgs, ArgsParsed;
      PrintArgsCons(argv, rs);
      assert PrintArgs(argv, rs)[0] == Word(argv[0]);
      assert Says(text, ts[0], Word(argv[0]));
      ArgsBack(text, ts, argv, rs, argc);
      var res := ParseArgs(ts, argc);
      assert [] + res.value.1 == res.value.1;
    }
  }

  lemma {:induction false} WrapWords(text: string, c: Cmd<Span>, rs: seq<Redir<Span>>)
    ensures Words(text, Wrap(c, rs)) == Wrap(Words(text, c), RedirTexts(text, rs))
    decreases |rs|
  {
    if rs != [] {
      WrapWords(text, Redirected(c, rs[0]), rs[1..]);
      assert RedirTexts(text, rs)[1..] == RedirTexts(text, rs[1..]);
    }
  }

  lemma {:induction false} WrapSnoc<W>(c: Cmd<W>, rs: seq<Redir<W>>, r: Redir<W>)
    ensures Wrap(c, rs + [r]) == Redirected(Wrap(c, rs), r)
    decreases |rs|
  {
    if rs != [] {
      WrapSnoc(Redirected(c, rs[0]), rs[1..], r);
      assert (rs + [r])[1..] == rs[1..] + [r];
    } else {
      assert [] + [r] == [r];
    }
  }

  lemma {:induction false} WrapBase(t: Cmd<string>)
    ensures Wrap(Base(t), Redirs(t)) == t
  {
    if t.Redirected? {
      WrapBase(t.cmd);
      WrapSnoc(Base(t.cmd), Redirs(t.cmd), t.redir);
    }
  }

  lemma FirstSym(text: string, ts: seq<Token>, c: char)
    requires Reads(text, ts, [Sym(c)])
    ensures ts != [] && ts[0].kind == c
  {
    assert Says(text, ts[0], [Sym(c)][0]);
  }

  lemma RedirsAreOk(t: Cmd<string>)
    requires TreeOk(t)
    ensures RedirsOk(Redirs(t))
  {
  }

  /** A plain command: no token before its arguments opens a block. */
  lemma PlainBack(text: string, ts: seq<Token>, argv: seq<string>, rs: seq<Redir<string>>)
    requires Reads(text, ts, PrintArgs(argv, rs)) && |argv| < MAXARGS && RedirsOk(rs)
    requires Follow(ts[|PrintArgs(argv, rs)|..], "|)&;")
    ensures Parsed(text, ParseExec(ts), Wrap(Exec(argv), rs), ts[|PrintArgs(argv, rs)|..])
  {
    ArgsTail(text, ts, argv, rs, 0);
    NotBlock(text, ts, argv, rs);
    hide Reads, Follow, RedirsOk, ParseArgs, ParseRedirs, PrintArgs, Starts;
    var redirs := ParseRedirs(ts);
    var res := ParseArgs(redirs.rest, 0);
    WrapWords(text, Exec(res.value.0), redirs.value + res.value.1);
  }

  lemma NotBlock(text: string, ts: seq<Token>, argv: seq<string>, rs: seq<Redir<string>>)
    requires Reads(text, ts, PrintArgs(argv, rs)) && RedirsOk(rs) && Follow(ts[|PrintArgs(argv, rs)|..], "|)&;")
    ensures !Starts(ts, "(")
  {
    if argv != [] {
      PrintArgsCons(argv, rs);
      assert Says(text, ts[0], PrintArgs(argv, rs)[0]);
    } else if rs != [] {
      PrintArgsNil(rs);
      assert RedirOk(rs[0]);
      assert Says(text, ts[0], PrintArgs(argv, rs)[0]);
    } else {
      assert ts[0..] == ts;
    }
  }

  /** The four parts of a block as it is printed. */
  lemma BlockParts(text: string, ts: seq<Token>, line: seq<Lex>, redirs: seq<Lex>)
    requires Reads(text, ts, [Sym('(')] + line + [Sym(')')] + redirs)
    ensures var n := |line|;
            && n + 2 + |redirs| <= |ts| && ts[0].kind == '(' && ts[n + 1].kind == ')'
            && Reads(text, ts[1..], line) && Reads(text, ts[n + 2..], redirs)
            && ts[1..][n..] == ts[n + 1..] && ts[n + 1..][1..] == ts[n + 2..]
            && ts[n + 2..][|redirs|..] == ts[|[Sym('(')] + line + [Sym(')')] + redirs|..]
  {
    var open, close := [Sym('(')], [Sym(')')];
    ReadsSplit(text, ts, open + line + close, redirs);
    ReadsSplit(text, ts, open + line, close);
    ReadsSplit(text, ts, open, line);
    FirstSym(text, ts, '(');
    FirstSym(text, ts[|line| + 1..], ')');
  }

  lemma {:induction false} ExecBack(text: string, ts: seq<Token>, t: Cmd<string>)
    requires TreeOk(t) && Short(t) && Reads(text, ts, PrintExec(t)) && Follow(ts[|PrintExec(t)|..], "|)&;")
    ensures Parsed(text, ParseExec(ts), t, ts[|PrintExec(t)|..])
    decreases Size(t), Rank(t, 1, 3, 2, 0)
  {
    hide Reads, Follow, RedirsOk, Words, ParseRedirs, ParseLine, PrintLine, PrintArgs, PrintRedirs, Wrap;
    var b, rs := Base(t), Redirs(t);
    WrapBase(t);
    RedirsAreOk(t);
    if b.Exec? {
      PlainBack(text, ts, b.argv, rs);
    } else {
      var line := PrintLine(b);
      BlockParts(text, ts, line, PrintRedirs(rs));
      FollowClose(ts[|line| + 1..]);
      LineBack(text, ts[1..], b);
      FollowNoRedir(ts[|PrintExec(t)|..]);
      RedirsBack(text, ts[|line| + 2..], rs);
      WrapWords(text, ParseLine(ts[1..]).value, ParseRedirs(ts[|line| + 2..]).value);
    }
  }

  lemma FollowClose(ts: seq<Token>)
    requires ts != [] && ts[0].kind == ')'
    ensures Follow(ts, ")")
  {
  }

  lemma FollowNoRedir(ts: seq<Token>)
    requires Follow(ts, "|)&;")
    ensures !Starts(ts, "<>+")
  {
  }

  lemma {:induction false} PipeBack(text: string, ts: seq<Token>, t: Cmd<string>)
    requires TreeOk(t) && Short(t) && Reads(text, ts, PrintPipe(t)) && Follow(ts[|PrintPipe(t)|..], ")&;")
    ensures Parsed(text, ParsePipe(ts), t, ts[|PrintPipe(t)|..])
    decreases Size(t), Rank(t, 2, 0, 3, 1)
  {
    hide Reads, ParseExec, PrintExec;
    if t.Pipe? {
      var left, right := PrintExec(t.left), PrintPipe(t.right);
      ReadsSplit(text, ts, left + [Sym('|')], right);
      ReadsSplit(text, ts, left, [Sym('|')]);
      FirstSym(text, ts[|left|..], '|');
      ExecBack(text, ts, t.left);
      assert ts[|left|..][1..] == ts[|left| + 1..];
      PipeBack(text, ts[|left| + 1..], t.right);
    } else {
      ExecBack(text, ts, t);
    }
  }

  /** After the pipeline and the & signs of t, the parser has the tree of t and goes on counting & signs. */
  lemma {:induction false} BackBack(text: string, ts: seq<Token>, t: Cmd<string>) returns (c: Cmd<Span>)
    requires TreeOk(t) && Short(t) && Reads(text, ts, PrintBack(t)) && Follow(ts[|PrintBack(t)|..], ")&;")
    ensures ParsePipe(ts).Ok? && Backs(ParsePipe(ts).value, ParsePipe(ts).rest) == Backs(c, ts[|PrintBack(t)|..])
    ensures Words(text, c) == t
    decreases Size(t), Rank(t, 3, 1, 0, 2)
  {
    hide Reads, ParsePipe, PrintPipe;
    if t.Back? {
      var inner := PrintBack(t.cmd);
      ReadsSplit(text, ts, inner, [Sym('&')]);
      FirstSym(text, ts[|inner|..], '&');
      var d := BackBack(text, ts, t.cmd);
      assert ts[|inner|..][1..] == ts[|inner| + 1..];
      c := Back(d);
    } else {
      PipeBack(text, ts, t);
      c := ParsePipe(ts).value;
    }
  }

  lemma {:induction false} LineBack(text: string, ts: seq<Token>, t: Cmd<string>)
    requires TreeOk(t) && Short(t) && Reads(text, ts, PrintLine(t)) && Follow(ts[|PrintLine(t)|..], ")")
    ensures Parsed(text, ParseLine(ts), t, ts[|PrintLine(t)|..])
    decreases Size(t), Rank(t, 0, 2, 1, 3)
  {
    hide Reads, ParsePipe, PrintBack;
    if t.List? {
      var left, right := PrintBack(t.left), PrintLine(t.right);
      ReadsSplit(text, ts, left + [Sym(';')], right);
      ReadsSplit(text, ts, left, [Sym(';')]);
      FirstSym(text, ts[|left|..], ';');
      var c := BackBack(text, ts, t.left);
      assert ts[|left|..][1..] == ts[|left| + 1..];
      LineBack(text, ts[|left| + 1..], t.right);
    } else {
      var c := BackBack(text, ts, t);
    }
  }

  // ------------------------------------------------------------------------ too many arguments

  /** Before a word there is no redirection. */
  lemma NoRedirBefore(text: string, ts: seq<Token>, argv: seq<string>, rs: seq<Redir<string>>)
    requires argv != [] && Reads(text, ts, PrintArgs(argv, rs))
    ensures ts != [] && ts[0].kind == 'a' && Reads(text, ts[1..], PrintArgs(argv[1..], rs))
    ensures ParseRedirs(ts) == Ok([], ts)
  {
    PrintArgsCons(argv, rs);
    ReadsSplit(text, ts, [Word(argv[0])], PrintArgs(argv[1..], rs));
    FirstWord(text, ts, argv[0]);
  }

  lemma {:induction false} ArgsFail(text: string, ts: seq<Token>, argv: seq<string>, rs: seq<Redir<string>>, argc: nat)
    requires Reads(text, ts, PrintArgs(argv, rs)) && argc < MAXARGS <= argc + |argv|
    ensures ParseArgs(ts, argc).Fail?
    decreases |argv|
  {
    hide PrintArgs, Reads, ParseRedirs;
    NoRedirBefore(text, ts, argv, rs);
    if argc + 1 < MAXARGS {
      NoRedirBefore(text, ts[1..], argv[1..], rs);
      ArgsFail(text, ts[1..], argv[1..], rs, argc + 1);
    }
  }

  lemma PlainFails(text: string, ts: seq<Token>, argv: seq<string>, rs: seq<Redir<string>>)
    requires Reads(text, ts, PrintArgs(argv, rs)) && |argv| >= MAXARGS
    ensures ParseExec(ts).Fail?
  {
    hide Reads, PrintArgs, ParseArgs;
    NoRedirBefore(text, ts, argv, rs);
    ArgsFail(text, ts, argv, rs, 0);
  }

  lemma {:induction false} ExecFails(text: string, ts: seq<Token>, t: Cmd<string>)
    requires TreeOk(t) && !Short(t) && Reads(text, ts, PrintExec(t))
    ensures ParseExec(ts).Fail?
    decreases Size(t), Rank(t, 1, 3, 2, 0)
  {
    hide Reads, ParseRedirs, ParseLine, PrintLine, PrintArgs, PrintRedirs;
    var b := Base(t);
    if b.Exec? {
      PlainFails(text, ts, b.argv, Redirs(t));
    } else {
      BlockParts(text, ts, PrintLine(b), PrintRedirs(Redirs(t)));
      LineFails(text, ts[1..], b);
    }
  }

  lemma {:induction false} PipeFails(text: string, ts: seq<Token>, t: Cmd<string>)
    requires TreeOk(t) && !Short(t) && Reads(text, ts, PrintPipe(t))
    ensures ParsePipe(ts).Fail?
    decreases Size(t), Rank(t, 2, 0, 3, 1)
  {
    hide Reads, ParseExec, PrintExec;
    if t.Pipe? {
      var left, right := PrintExec(t.left), PrintPipe(t.right);
      ReadsSplit(text, ts, left + [Sym('|')], right);
      ReadsSplit(text, ts, left, [Sym('|')]);
      FirstSym(text, ts[|left|..], '|');
      if Short(t.left) {
        ExecBack(text, ts, t.left);
        assert ts[|left|..][1..] == ts[|left| + 1..];
        PipeFails(text, ts[|left| + 1..], t.right);
      } else {
        ExecFails(text, ts, t.left);
      }
    } else {
      ExecFails(text, ts, t);
    }
  }

  lemma {:induction false} BackFails(text: string, ts: seq<Token>, t: Cmd<string>)
    requires TreeOk(t) && !Short(t) && Reads(text, ts, PrintBack(t))
    ensures ParsePipe(ts).Fail?
    decreases Size(t), Rank(t, 3, 1, 0, 2)
  {
    hide Reads, ParsePipe, PrintPipe;
    if t.Back? {
      ReadsSplit(text, ts, PrintBack(t.cmd), [Sym('&')]);
      BackFails(text, ts, t.cmd);
    } else {
      PipeFails(text, ts, t);
    }
  }

  /** A tree with a command of too many arguments is refused, wherever in it the command is. */
  lemma {:induction false} LineFails(text: string, ts: seq<Token>, t: Cmd<string>)
    requires TreeOk(t) && !Short(t) && Reads(text, ts, PrintLine(t))
    ensures ParseLine(ts).Fail?
    decreases Size(t), Rank(t, 0, 2, 1, 3)
  {
    hide Reads, ParsePipe, PrintBack;
    if t.List? {
      var left, right := PrintBack(t.left), PrintLine(t.right);
      ReadsSplit(text, ts, left + [Sym(';')], right);
      ReadsSplit(text, ts, left, [Sym(';')]);
      FirstSym(text, ts[|left|..], ';');
      if Short(t.left) {
        var c := BackBack(text, ts, t.left);
        assert ts[|left|..][1..] == ts[|left| + 1..];
        LineFails(text, ts[|left| + 1..], t.right);
      } else {
        BackFails(text, ts, t.left);
      }
    } else {
      BackFails(text, ts, t);
    }
  }

  // ---------------------------------------------------------------- what a parsed tree is like

  /** Every word of the tree is a word of the line, and no command has too many. */
  ghost predicate Good(text: string, c: Cmd<Span>) {
    match c
    case Exec(argv) => |argv| < MAXARGS && GoodWords(text, argv)
    case Redirected(d, r) => Good(text, d) && GoodRedir(text, r)
    case Pipe(l, r) => Good(text, l) && Good(text, r)
    case List(l, r) => Good(text, l) && Good(text, r)
    case Back(d) => Good(text, d)
  }

  ghost predicate GoodWords(text: string, argv: seq<Span>) {
    forall i :: 0 <= i < |argv| ==> WordAt(text, argv[i].q, argv[i].eq)
  }

  ghost predicate GoodRedir(text: string, r: Redir<Span>) {
    WordAt(text, r.file.q, r.file.eq) && exists k :: r == RedirOf(k, r.file)
  }

  ghost predicate GoodRedirs(text: string, rs: seq<Redir<Span>>) {
    forall i :: 0 <= i < |rs| ==> GoodRedir(text, rs[i])
  }

  lemma {:induction false} GoodWrap(text: string, c: Cmd<Span>, rs: seq<Redir<Span>>)
    requires Good(text, c) && GoodRedirs(text, rs)
    ensures Good(text, Wrap(c, rs))
    decreases |rs|
  {
    if rs != [] {
      GoodWrap(text, Redirected(c, rs[0]), rs[1..]);
    }
  }

  lemma {:induction false} RedirsGood(text: string, ts: seq<Token>)
    requires TokensOk(text, ts)
    ensures ParseRedirs(ts).Ok? ==> GoodRedirs(text, ParseRedirs(ts).value) && TokensOk(text, ParseRedirs(ts).rest)
    decreases |ts|
  {
    hide TokenOk, WordAt, RedirOf;
    if Starts(ts, "<>+") && |ts| >= 2 && ts[1].kind == 'a' {
      RedirsGood(text, ts[2..]);
      WordToken(text, ts[1]);
      assert GoodRedir(text, RedirOf(ts[0].kind, SpanOf(ts[1])));
    }
  }

  lemma WordToken(text: string, t: Token)
    requires TokenOk(text, t) && t.kind == 'a'
    ensures WordAt(text, t.start, t.end)
    ensures forall k :: RedirOf(k, SpanOf(t)).file == SpanOf(t)
  {
  }

  lemma {:induction false} ArgsGood(text: string, ts: seq<Token>, argc: nat)
    requires TokensOk(text, ts) && argc < MAXARGS
    ensures var res := ParseArgs(ts, argc);
            res.Ok? ==> argc + |res.value.0| < MAXARGS && GoodWords(text, res.value.0)
                        && GoodRedirs(text, res.value.1) && TokensOk(text, res.rest)
    decreases |ts|
  {
    hide TokenOk, WordAt, GoodRedir;
    if ts != [] && !Starts(ts, "|)&;") && ts[0].kind == 'a' && argc + 1 < MAXARGS {
      WordToken(text, ts[0]);
      RedirsGood(text, ts[1..]);
      var redirs := ParseRedirs(ts[1..]);
      if redirs.Ok? {
        ArgsGood(text, redirs.rest, argc + 1);
      }
    }
  }

  lemma {:induction false} ExecGood(text: string, ts: seq<Token>)
    requires TokensOk(text, ts)
    ensures ParseExec(ts).Ok? ==> Good(text, ParseExec(ts).value) && TokensOk(text, ParseExec(ts).rest)
    decreases |ts|, 1
  {
    hide TokenOk, GoodWords, GoodRedir, ParseRedirs, ParseArgs;
    if Starts(ts, "(") {
      BlockGood(text, ts);
    } else {
      RedirsGood(text, ts);
      var redirs := ParseRedirs(ts);
      if redirs.Ok? {
        ArgsGood(text, redirs.rest, 0);
        var res := ParseArgs(redirs.rest, 0);
        if res.Ok? {
          GoodWrap(text, Exec(res.value.0), redirs.value + res.value.1);
        }
      }
    }
  }

  lemma {:induction false} BlockGood(text: string, ts: seq<Token>)
    requires TokensOk(text, ts) && Starts(ts, "(")
    ensures ParseBlock(ts).Ok? ==> Good(text, ParseBlock(ts).value) && TokensOk(text, ParseBlock(ts).rest)
    decreases |ts|, 0
  {
    hide TokenOk, GoodRedirs, ParseRedirs, ParseLine, Good;
    LineGood(text, ts[1..]);
    var line := ParseLine(ts[1..]);
    if line.Ok? && Starts(line.rest, ")") {
      RedirsGood(text, line.rest[1..]);
      var redirs := ParseRedirs(line.rest[1..]);
      if redirs.Ok? {
        GoodWrap(text, line.value, redirs.value);
      }
    }
  }

  lemma {:induction false} PipeGood(text: string, ts: seq<Token>)
    requires TokensOk(text, ts)
    ensures ParsePipe(ts).Ok? ==> Good(text, ParsePipe(ts).value) && TokensOk(text, ParsePipe(ts).rest)
    decreases |ts|, 2
  {
    hide TokenOk, ParseExec;
    ExecGood(text, ts);
    var left := ParseExec(ts);
    if left.Ok? && Starts(left.rest, "|") {
      PipeGood(text, left.rest[1..]);
    }
  }

  lemma {:induction false} BacksGood(text: string, c: Cmd<Span>, ts: seq<Token>)
    requires Good(text, c) && TokensOk(text, ts)
    ensures Good(text, Backs(c, ts).0) && TokensOk(text, Backs(c, ts).1)
    decreases |ts|
  {
    hide TokenOk;
    if Starts(ts, "&") {
      BacksGood(text, Back(c), ts[1..]);
    }
  }

  lemma {:induction false} LineGood(text: string, ts: seq<Token>)
    requires TokensOk(text, ts)
    ensures ParseLine(ts).Ok? ==> Good(text, ParseLine(ts).value) && TokensOk(text, ParseLine(ts).rest)
    decreases |ts|, 3
  {
    hide TokenOk, ParsePipe;
    PipeGood(text, ts);
    var pipe := ParsePipe(ts);
    if pipe.Ok? {
      BacksGood(text, pipe.value, pipe.rest);
      var rest := Backs(pipe.value, pipe.rest).1;
      if Starts(rest, ";") {
        LineGood(text, rest[1..]);
      }
    }
  }

  lemma {:induction false} GoodMeansOk(text: string, c: Cmd<Span>)
    requires Good(text, c)
    ensures Short(Words(text, c)) && TreeOk(Words(text, c))
  {
    match c
    case Exec(argv) =>
    case Redirected(d, r) => GoodMeansOk(text, d);
    case Pipe(l, r) => GoodMeansOk(text, l); GoodMeansOk(text, r);
    case List(l, r) => GoodMeansOk(text, l); GoodMeansOk(text, r);
    case Back(d) => GoodMeansOk(text, d);
  }

  // ---------------------------------------------------------------------------- the round trip

  ghost predicate LexesOk(xs: seq<Lex>) {
    forall i :: 0 <= i < |xs| ==> LexOk(xs[i])
  }

  lemma {:induction false} RenderIsLine(xs: seq<Lex>)
    requires LexesOk(xs)
    ensures ShellTokens.Line(Render(xs))
    decreases |xs|
  {
    if xs != [] {
      assert LexOk(xs[0]);
      RenderIsLine(xs[1..]);
      var w := Spelling(xs[0]);
      assert NUL !in w;
    }
  }

  lemma {:induction false} WordsLexOk(ws: seq<string>)
    requires forall i :: 0 <= i < |ws| ==> WordOk(ws[i])
    ensures LexesOk(PrintWords(ws))
    decreases |ws|
  {
    if ws != [] {
      WordsLexOk(ws[1..]);
    }
  }

  lemma {:induction false} RedirsLexOk(rs: seq<Redir<string>>)
    requires RedirsOk(rs)
    ensures LexesOk(PrintRedirs(rs))
    decreases |rs|
  {
    if rs != [] {
      assert RedirOk(rs[0]);
      RedirsLexOk(rs[1..]);
    }
  }

  lemma {:induction false} LineLexOk(t: Cmd<string>)
    requires TreeOk(t)
    ensures LexesOk(PrintLine(t))
    decreases Size(t), Rank(t, 0, 2, 1, 3)
  {
    hide LexOk, PrintBack;
    assert LexOk(Sym(';')) by { SymOk(); }
    if t.List? {
      BackLexOk(t.left);
      LineLexOk(t.right);
    } else {
      BackLexOk(t);
    }
  }

  lemma SymOk()
    ensures LexOk(Sym(';')) && LexOk(Sym('&')) && LexOk(Sym('|')) && LexOk(Sym('(')) && LexOk(Sym(')'))
  {
  }

  lemma {:induction false} BackLexOk(t: Cmd<string>)
    requires TreeOk(t)
    ensures LexesOk(PrintBack(t))
    decreases Size(t), Rank(t, 3, 1, 0, 2)
  {
    hide LexOk, PrintPipe;
    SymOk();
    if t.Back? {
      BackLexOk(t.cmd);
    } else {
      PipeLexOk(t);
    }
  }

  lemma {:induction false} PipeLexOk(t: Cmd<string>)
    requires TreeOk(t)
    ensures LexesOk(PrintPipe(t))
    decreases Size(t), Rank(t, 2, 0, 3, 1)
  {
    hide LexOk, PrintExec;
    SymOk();
    if t.Pipe? {
      ExecLexOk(t.left);
      PipeLexOk(t.right);
    } else {
      ExecLexOk(t);
    }
  }

  lemma {:induction false} ExecLexOk(t: Cmd<string>)
    requires TreeOk(t)
    ensures LexesOk(PrintExec(t))
    decreases Size(t), Rank(t, 1, 3, 2, 0)
  {
    hide LexOk, PrintLine, RedirOk;
    SymOk();
    var b := Base(t);
    RedirsAreOk(t);
    RedirsLexOk(Redirs(t));
    if b.Exec? {
      WordsLexOk(b.argv);
    } else {
      LineLexOk(b);
    }
  }

  /**
   A tree of ordinary words is read back from its command line exactly when no command has too
   many arguments, and refused otherwise.
   */
  lemma RoundTrip(t: Cmd<string>)
    requires TreeOk(t)
    ensures ShellTokens.Line(Print(t))
    ensures ParseCmd(Print(t)).Ok? && Words(Print(t), ParseCmd(Print(t)).value) == t <==> Short(t)
    ensures ParseCmd(Print(t)).Fail? <==> !Short(t)
  {
    hide LexesOk, Tokens, ParseLine, Words, Short, PrintLine, Render, TokenOk;
    var text, xs := Print(t), PrintLine(t);
    LineLexOk(t);
    RenderIsLine(xs);
    ReadPrinted(t);
    var ts := Tokens(text, 0);
    if Short(t) {
      LineBack(text, ts, t);
    } else {
      LineFails(text, ts, t);
    }
  }

  /** Ten arguments are too many. */
  lemma TenArguments(argv: seq<string>)
    requires |argv| == 10 && TreeOk(Exec(argv))
    ensures ParseCmd(Print(Exec(argv))).Fail?
  {
    hide Print, ParseCmd;
    RoundTrip(Exec(argv));
  }

  lemma ReadPrinted(t: Cmd<string>)
    requires TreeOk(t)
    ensures var ts := Tokens(Print(t), 0); Reads(Print(t), ts, PrintLine(t)) && ts[|PrintLine(t)|..] == []
  {
    hide Tokens, PrintLine, Render, Says, TreeOk;
    LineLexOk(t);
    TokensOfRender("", PrintLine(t));
    assert "" + Print(t) == Print(t);
  }

  /** Whatever line is accepted, its tree has a canonical line that is accepted with the same tree. */
  lemma Canonical(text: string)
    requires ShellTokens.Line(text) && ParseCmd(text).Ok?
    ensures var t := Words(text, ParseCmd(text).value);
            ParseCmd(Print(t)).Ok? && Words(Print(t), ParseCmd(Print(t)).value) == t
  {
    hide Tokens, ParseLine, Words, Short, Print;
    TokensAreOk(text, 0);
    LineGood(text, Tokens(text, 0));
    GoodMeansOk(text, ParseCmd(text).value);
    RoundTrip(Words(text, ParseCmd(text).value));
  }

  // ----------------------------------------------------------------------------- nulterminate

  /** The line after some delimiters were overwritten with NUL. */
  ghost predicate Cut(text: string, buf: seq<char>) {
    && |buf| == |text| + 1 && buf[|text|] == NUL
    && forall j :: 0 <= j < |text| ==> (buf[j] == text[j] || (buf[j] == NUL && Delimiter(text, j)))
  }

  /** Every word of the tree is a C string of its own: its characters, then NUL. */
  ghost predicate Ended(text: string, buf: seq<char>, c: Cmd<Span>)
    requires |buf| == |text| + 1
  {
    match c
    case Exec(argv) => forall i :: 0 <= i < |argv| ==> EndedWord(text, buf, argv[i])
    case Redirected(d, r) => Ended(text, buf, d) && EndedWord(text, buf, r.file)
    case Pipe(l, r) => Ended(text, buf, l) && Ended(text, buf, r)
    case List(l, r) => Ended(text, buf, l) && Ended(text, buf, r)
    case Back(d) => Ended(text, buf, d)
  }

  ghost predicate EndedWord(text: string, buf: seq<char>, s: Span)
    requires |buf| == |text| + 1
  {
    s.eq <= |text| && buf[s.eq] == NUL
  }

  /** Words already ended stay ended. */
  ghost predicate Grows(before: seq<char>, after: seq<char>) {
    |after| == |before| && forall j :: 0 <= j < |before| && before[j] == NUL ==> after[j] == NUL
  }

  lemma {:induction false} EndedGrows(text: string, before: seq<char>, after: seq<char>, c: Cmd<Span>)
    requires |before| == |text| + 1 && Grows(before, after) && Ended(text, before, c)
    ensures Ended(text, after, c)
  {
    match c
    case Exec(argv) =>
      forall i | 0 <= i < |argv| ensures EndedWord(text, after, argv[i]) {
        assert EndedWord(text, before, argv[i]);
      }
    case Redirected(d, r) => EndedGrows(text, before, after, d);
    case Pipe(l, r) => EndedGrows(text, before, after, l); EndedGrows(text, before, after, r);
    case List(l, r) => EndedGrows(text, before, after, l); EndedGrows(text, before, after, r);
    case Back(d) => EndedGrows(text, before, after, d);
  }

  method NulTerminate(c: Cmd<Span>, buf: array<char>, ghost text: string)
    requires Cut(text, buf[..]) && Good(text, c)
    modifies buf
    ensures Cut(text, buf[..]) && Ended(text, buf[..], c) && Grows(old(buf[..]), buf[..])
    decreases c
  {
    match c {
      case Exec(argv) =>
        var i := 0;
        while i < |argv|
          invariant 0 <= i <= |argv| && Cut(text, buf[..]) && Grows(old(buf[..]), buf[..])
          invariant forall k :: 0 <= k < i ==> EndedWord(text, buf[..], argv[k])
        {
          assert WordAt(text, argv[i].q, argv[i].eq);
          buf[argv[i].eq] := NUL;
          i := i + 1;
        }
      case Redirected(d, r) =>
        NulTerminate(d, buf, text);
        ghost var was := buf[..];
        buf[r.file.eq] := NUL;
        EndedGrows(text, was, buf[..], d);
      case Pipe(l, r) =>
        NulTerminate(l, buf, text);
        ghost var was := buf[..];
        NulTerminate(r, buf, text);
        EndedGrows(text, was, buf[..], l);
      case List(l, r) =>
        NulTerminate(l, buf, text);
        ghost var was := buf[..];
        NulTerminate(r, buf, text);
        EndedGrows(text, was, buf[..], l);
      case Back(d) =>
        NulTerminate(d, buf, text);
    }
  }

  /** The C string at q. */
  function CString(buf: seq<char>, q: nat): string
    decreases |buf| - q
  {
    if q >= |buf| || buf[q] == NUL then "" else [buf[q]] + CString(buf, q + 1)
  }

  /** A word of the tree, read as a C string once the line has been cut, is the word that was parsed. */
  lemma {:induction false} WordSurvives(text: string, buf: seq<char>, s: Span, from: nat)
    requires Cut(text, buf) && WordAt(text, s.q, s.eq) && buf[s.eq] == NUL && s.q <= from <= s.eq
    ensures CString(buf, from) == text[from..s.eq]
    decreases s.eq - from
  {
    if from < s.eq {
      WordSurvives(text, buf, s, from + 1);
      assert text[from..s.eq] == [text[from]] + text[from + 1..s.eq];
      assert WordChar(text[from]);
    }
  }

  /** parsecmd: the tree, and the line cut so that each of its words stands alone. */
  method ParseAndCut(text: string) returns (ok: bool, c: Cmd<Span>, buf: array<char>)
    requires ShellTokens.Line(text)
    ensures fresh(buf) && (ok <==> ParseCmd(text).Ok?)
    ensures ok ==> c == ParseCmd(text).value && Good(text, c) && Cut(text, buf[..]) && Ended(text, buf[..], c)
  {
    buf := new char[|text| + 1](i requires 0 <= i < |text| + 1 => if i < |text| then text[i] else NUL);
    ok, c := ParseCommand(text);
    if ok {
      TokensAreOk(text, 0);
      LineGood(text, Tokens(text, 0));
      NulTerminate(c, buf, text);
    }
  }
}
