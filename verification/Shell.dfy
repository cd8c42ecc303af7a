/**
 The shell's parser (user/sh.c): parsecmd and the functions under it, and nulterminate.

 The functions below read a row of tokens; the methods move a cursor over the command line
 as the program does, and compute what the functions say.
 */
module Shell {
  import opened Common
  import opened ShellTokens

  const MAXARGS: nat := 10
  const O_RDONLY: nat := 0
  const O_WRONLY: nat := 1
  const O_CREATE: nat := 0x200
  const O_TRUNC: nat := 0x400

  datatype Redir<W> = Redir(file: W, mode: nat, fd: nat)

  datatype Cmd<W> =
    | Exec(argv: seq<W>)
    | Redirected(cmd: Cmd<W>, redir: Redir<W>)
    | Pipe(left: Cmd<W>, right: Cmd<W>)
    | List(left: Cmd<W>, right: Cmd<W>)
    | Back(cmd: Cmd<W>)

  /** Where a word lies in the command line: from q up to eq. */
  datatype Span = Span(q: nat, eq: nat)

  datatype Result<T> = Fail | Ok(value: T, rest: seq<Token>)

  predicate Starts(ts: seq<Token>, kinds: string) {
    ts != [] && ts[0].kind in kinds
  }

  function SpanOf(t: Token): Span {
    Span(t.start, t.end)
  }

  /** Redirections apply in the order they are written. */
  function Wrap<W>(c: Cmd<W>, rs: seq<Redir<W>>): Cmd<W>
    decreases |rs|
  {
    if rs == [] then c else Wrap(Redirected(c, rs[0]), rs[1..])
  }

  /** < opens a file for descriptor 0; > and >> open or create one for descriptor 1, and only > empties it. */
  function RedirOf<W>(kind: char, file: W): (r: Redir<W>)
    ensures r.file == file && (r.fd == 0 <==> kind == '<') && (r.fd == 1 <==> kind != '<')
    ensures r.mode == if kind == '<' then 0 else if kind == '>' then 0x601 else 0x201
  {
    if kind == '<' then Redir(file, O_RDONLY, 0)
    else if kind == '>' then Redir(file, O_WRONLY + O_CREATE + O_TRUNC, 1)
    else Redir(file, O_WRONLY + O_CREATE, 1)
  }

  // ------------------------------------------------------------------- the parser on tokens

  function ParseRedirs(ts: seq<Token>): (r: Result<seq<Redir<Span>>>)
    ensures r.Ok? ==> |r.rest| <= |ts|
  {
    if !Starts(ts, "<>+") then Ok([], ts)
    else if |ts| < 2 || ts[1].kind != 'a' then Fail
    else match ParseRedirs(ts[2..])
      case Fail => Fail
      case Ok(rs, rest) => Ok([RedirOf(ts[0].kind, SpanOf(ts[1]))] + rs, rest)
  }

  /** The arguments after the first `argc`, with the redirections among them. */
  function ParseArgs(ts: seq<Token>, argc: nat): (r: Result<(seq<Span>, seq<Redir<Span>>)>)
    ensures r.Ok? ==> |r.rest| <= |ts|
    decreases |ts|
  {
    if ts == [] || Starts(ts, "|)&;") then Ok(([], []), ts)
    else if ts[0].kind != 'a' || argc + 1 >= MAXARGS then Fail
    else match ParseRedirs(ts[1..])
      case Fail => Fail
      case Ok(rs, ts1) =>
        match ParseArgs(ts1, argc + 1)
        case Fail => Fail
        case Ok(more, rest) => Ok(([SpanOf(ts[0])] + more.0, rs + more.1), rest)
  }

  function ParseExec(ts: seq<Token>): (r: Result<Cmd<Span>>)
    ensures r.Ok? ==> |r.rest| <= |ts|
    decreases |ts|, 1
  {
    if Starts(ts, "(") then ParseBlock(ts)
    else match ParseRedirs(ts)
      case Fail => Fail
      case Ok(rs, ts1) =>
        match ParseArgs(ts1, 0)
        case Fail => Fail
        case Ok(args, rest) => Ok(Wrap(Exec(args.0), rs + args.1), rest)
  }

  function ParseBlock(ts: seq<Token>): (r: Result<Cmd<Span>>)
    requires Starts(ts, "(")
    ensures r.Ok? ==> |r.rest| <= |ts|
    decreases |ts|, 0
  {
    match ParseLine(ts[1..])
    case Fail => Fail
    case Ok(c, ts1) =>
      if !Starts(ts1, ")") then Fail
      else match ParseRedirs(ts1[1..])
        case Fail => Fail
        case Ok(rs, rest) => Ok(Wrap(c, rs), rest)
  }

  function ParsePipe(ts: seq<Token>): (r: Result<Cmd<Span>>)
    ensures r.Ok? ==> |r.rest| <= |ts|
    decreases |ts|, 2
  {
    match ParseExec(ts)
    case Fail => Fail
    case Ok(c, ts1) =>
      if !Starts(ts1, "|") then Ok(c, ts1)
      else match ParsePipe(ts1[1..])
        case Fail => Fail
        case Ok(d, rest) => Ok(Pipe(c, d), rest)
  }

  function Backs(c: Cmd<Span>, ts: seq<Token>): (r: (Cmd<Span>, seq<Token>))
    ensures |r.1| <= |ts|
    decreases |ts|
  {
    if Starts(ts, "&") then Backs(Back(c), ts[1..]) else (c, ts)
  }

  function ParseLine(ts: seq<Token>): (r: Result<Cmd<Span>>)
    ensures r.Ok? ==> |r.rest| <= |ts|
    decreases |ts|, 3
  {
    match ParsePipe(ts)
    case Fail => Fail
    case Ok(c, ts1) =>
      var (d, ts2) := Backs(c, ts1);
      if !Starts(ts2, ";") then Ok(d, ts2)
      else match ParseLine(ts2[1..])
        case Fail => Fail
        case Ok(e, rest) => Ok(List(d, e), rest)
  }

  /** parsecmd up to nulterminate: the whole line, or a panic. */
  function ParseCmd(text: string): Result<Cmd<Span>> {
    match ParseLine(Tokens(text, 0))
    case Fail => Fail
    case Ok(c, rest) => if rest == [] then Ok(c, []) else Fail
  }

  // --------------------------------------------------------------- the parser with its cursor

  /** What a method that leaves the cursor at r computes: what the function says of the tokens from s. */
  ghost predicate Agrees<T>(text: string, s: nat, ok: bool, v: T, r: nat, want: Result<T>) {
    && s <= r <= |text|
    && (ok <==> want.Ok?)
    && (ok ==> want == Ok(v, Tokens(text, r)))
  }

  /** Peeking at a character tells the kind of the token. */
  lemma PeekTells(text: string, s: nat)
    requires ShellTokens.Line(text) && s <= |text|
    ensures Tokens(text, s) != [] ==>
              var t := Tokens(text, s)[0];
              && t.start < |text| && t.kind != NUL
              && (text[t.start] in "<>" <==> t.kind in "<>+")
              && (text[t.start] in "|)&;" <==> t.kind in "|)&;")
              && (text[t.start] in "(" <==> t.kind in "(") && (text[t.start] in ")" <==> t.kind in ")")
              && (text[t.start] in "|" <==> t.kind in "|") && (text[t.start] in "&" <==> t.kind in "&")
              && (text[t.start] in ";" <==> t.kind in ";")
  {
    TokensAreOk(text, s);
    if Tokens(text, s) != [] {
      assert TokenOk(text, Tokens(text, s)[0]);
    }
  }

  ghost function Prepend(rs: seq<Redir<Span>>, res: Result<seq<Redir<Span>>>): Result<seq<Redir<Span>>> {
    match res
    case Fail => Fail
    case Ok(more, rest) => Ok(rs + more, rest)
  }

  lemma PrependNil(res: Result<seq<Redir<Span>>>)
    ensures Prepend([], res) == res
  {
    if res.Ok? {
      assert [] + res.value == res.value;
    }
  }

  lemma PrependSnoc(rs: seq<Redir<Span>>, x: Redir<Span>, res: Result<seq<Redir<Span>>>)
    ensures Prepend(rs, Prepend([x], res)) == Prepend(rs + [x], res)
  {
    if res.Ok? {
      assert rs + ([x] + res.value) == rs + [x] + res.value;
    }
  }

  /** parseredirs */
  method TakeRedirs(text: string, s: nat) returns (ok: bool, rs: seq<Redir<Span>>, r: nat)
    requires ShellTokens.Line(text) && s <= |text|
    ensures Agrees(text, s, ok, rs, r, ParseRedirs(Tokens(text, s)))
  {
    hide Tokens;
    ok, rs, r := true, [], s;
    var yes;
    PeekTells(text, s);
    yes, r := Peek(text, r, "<>");
    PrependNil(ParseRedirs(Tokens(text, s)));
    while yes
      invariant s <= r <= |text| && (yes <==> Starts(Tokens(text, r), "<>+"))
      invariant ParseRedirs(Tokens(text, s)) == Prepend(rs, ParseRedirs(Tokens(text, r)))
      decreases |text| - r
    {
      ghost var ts := Tokens(text, r);
      var tok, file;
      tok, r := GetToken(text, r);
      file, r := GetToken(text, r);
      if file.kind != 'a' {
        return false, rs, r;
      }
      PrependSnoc(rs, RedirOf(tok.kind, SpanOf(file)), ParseRedirs(ts[2..]));
      rs := rs + [RedirOf(tok.kind, SpanOf(file))];
      PeekTells(text, r);
      yes, r := Peek(text, r, "<>");
    }
    assert rs + [] == rs;
  }

  ghost function Finish(args: seq<Span>, rs: seq<Redir<Span>>,
          res: Result<(seq<Span>, seq<Redir<Span>>)>): Result<Cmd<Span>> {
    match res
    case Fail => Fail
    case Ok(more, rest) => Ok(Wrap(Exec(args + more.0), rs + more.1), rest)
  }

  lemma FinishNil(rs: seq<Redir<Span>>, res: Result<(seq<Span>, seq<Redir<Span>>)>)
    ensures Finish([], rs, res) == if res.Ok? then Ok(Wrap(Exec(res.value.0), rs + res.value.1), res.rest) else Fail
  {
    if res.Ok? {
      assert [] + res.value.0 == res.value.0;
    }
  }

  /** One more argument and its redirections. */
  lemma FinishSnoc(ts: seq<Token>, args: seq<Span>, rs: seq<Redir<Span>>)
    requires ts != [] && !Starts(ts, "|)&;")
    ensures Finish(args, rs, ParseArgs(ts, |args|)) ==
            if ts[0].kind != 'a' || |args| + 1 >= MAXARGS || ParseRedirs(ts[1..]).Fail? then Fail
            else
              var more := ParseRedirs(ts[1..]);
              Finish(args + [SpanOf(ts[0])], rs + more.value, ParseArgs(more.rest, |args| + 1))
  {
    var more := ParseRedirs(ts[1..]);
    if ts[0].kind == 'a' && |args| + 1 < MAXARGS && more.Ok? {
      var res := ParseArgs(more.rest, |args| + 1);
      if res.Ok? {
        assert args + ([SpanOf(ts[0])] + res.value.0) == args + [SpanOf(ts[0])] + res.value.0;
        assert rs + (more.value + res.value.1) == rs + more.value + res.value.1;
      }
    }
  }

  /** parseexec. The arguments are collected beside the redirections and joined at the end. */
  method TakeExec(text: string, s: nat) returns (ok: bool, c: Cmd<Span>, r: nat)
    requires ShellTokens.Line(text) && s <= |text|
    ensures Agrees(text, s, ok, c, r, ParseExec(Tokens(text, s)))
    decreases |text| - s, 1
  {
    hide Tokens, ParseLine, ParseRedirs, Wrap;
    ghost var ts := Tokens(text, s);
    var yes, rs, args;
    c := Exec([]);
    PeekTells(text, s);
    yes, r := Peek(text, s, "(");
    if yes {
      ok, c, r := TakeBlock(text, r);
      return;
    }
    ok, rs, r := TakeRedirs(text, r);
    if !ok {
      return;
    }
    args := [];
    PeekTells(text, r);
    yes, r := Peek(text, r, "|)&;");
    FinishNil(rs, ParseArgs(Tokens(text, r), 0));
    while !yes
      invariant s <= r <= |text| && (yes <==> Starts(Tokens(text, r), "|)&;"))
      invariant ParseExec(ts) == Finish(args, rs, ParseArgs(Tokens(text, r), |args|))
      decreases |text| - r
    {
      ghost var now := Tokens(text, r);
      PeekTells(text, r);
      var tok, more;
      tok, r := GetToken(text, r);
      if tok.kind == NUL {
        break;
      }
      FinishSnoc(now, args, rs);
      if tok.kind != 'a' {
        return false, c, r;
      }
      args := args + [SpanOf(tok)];
      if |args| >= MAXARGS {
        return false, c, r;
      }
      ok, more, r := TakeRedirs(text, r);
      if !ok {
        return;
      }
      rs := rs + more;
      PeekTells(text, r);
      yes, r := Peek(text, r, "|)&;");
    }
    ok, c := true, Wrap(Exec(args), rs);
    assert args + [] == args && rs + [] == rs;
  }

  /** parseblock, called where the next token is a parenthesis. */
  method TakeBlock(text: string, s: nat) returns (ok: bool, c: Cmd<Span>, r: nat)
    requires ShellTokens.Line(text) && s <= |text| && Starts(Tokens(text, s), "(")
    ensures Agrees(text, s, ok, c, r, ParseBlock(Tokens(text, s)))
    decreases |text| - s, 0
  {
    hide Tokens, ParseLine, ParseRedirs, Wrap;
    var tok, yes, rs;
    tok, r := GetToken(text, s);
    ok, c, r := TakeLine(text, r);
    if !ok {
      return;
    }
    PeekTells(text, r);
    yes, r := Peek(text, r, ")");
    if !yes {
      return false, c, r;
    }
    tok, r := GetToken(text, r);
    ok, rs, r := TakeRedirs(text, r);
    if ok {
      c := Wrap(c, rs);
    }
  }

  /** parsepipe */
  method TakePipe(text: string, s: nat) returns (ok: bool, c: Cmd<Span>, r: nat)
    requires ShellTokens.Line(text) && s <= |text|
    ensures Agrees(text, s, ok, c, r, ParsePipe(Tokens(text, s)))
    decreases |text| - s, 2
  {
    hide Tokens, ParseExec;
    ok, c, r := TakeExec(text, s);
    if !ok {
      return;
    }
    var yes, tok, d;
    PeekTells(text, r);
    yes, r := Peek(text, r, "|");
    if yes {
      tok, r := GetToken(text, r);
      ok, d, r := TakePipe(text, r);
      if ok {
        c := Pipe(c, d);
      }
    }
  }

  /** parseline */
  method TakeLine(text: string, s: nat) returns (ok: bool, c: Cmd<Span>, r: nat)
    requires ShellTokens.Line(text) && s <= |text|
    ensures Agrees(text, s, ok, c, r, ParseLine(Tokens(text, s)))
    decreases |text| - s, 3
  {
    hide Tokens, ParsePipe;
    ok, c, r := TakePipe(text, s);
    if !ok {
      return;
    }
    var yes, tok, d;
    ghost var all := Backs(c, Tokens(text, r));
    PeekTells(text, r);
    yes, r := Peek(text, r, "&");
    while yes
      invariant s <= r <= |text| && (yes <==> Starts(Tokens(text, r), "&"))
      invariant Backs(c, Tokens(text, r)) == all
      decreases |text| - r
    {
      tok, r := GetToken(text, r);
      c := Back(c);
      PeekTells(text, r);
      yes, r := Peek(text, r, "&");
    }
    PeekTells(text, r);
    yes, r := Peek(text, r, ";");
    if yes {
      tok, r := GetToken(text, r);
      ok, d, r := TakeLine(text, r);
      if ok {
        c := List(c, d);
      }
    }
  }

  /** parsecmd: the tree of a line, unless something is left over. */
  method ParseCommand(text: string) returns (ok: bool, c: Cmd<Span>)
    requires ShellTokens.Line(text)
    ensures ok <==> ParseCmd(text).Ok?
    ensures ok ==> c == ParseCmd(text).value
  {
    hide Tokens, ParseLine;
    var r, yes;
    ok, c, r := TakeLine(text, 0);
    if ok {
      yes, r := Peek(text, r, "");
      ok := r == |text|;
    }
  }
}
