/** The shell's language as a grammar over tokens, and its printing. */
module ShGrammar {

  const MAXARGS: nat := 10

  // fcntl.h
  const O_RDONLY: nat := 0x000
  const O_WRONLY: nat := 0x001
  const O_CREATE: nat := 0x200
  const O_TRUNC: nat := 0x400

  /** A word, or a symbol; `+` stands for `>>`. */
  datatype Token = Word(w: string) | Sym(c: char)

  datatype Cmd<W> =
    | Exec(argv: seq<W>)
    | Redir(cmd: Cmd, file: W, mode: nat, fd: nat)
    | Pipe(left: Cmd, right: Cmd)
    | List(left: Cmd, right: Cmd)
    | Back(cmd: Cmd)

  /** A parse: the value and the tokens not consumed, or a call to panic. */
  datatype Parse<T> = Ok(value: T, rest: seq<Token>) | Panic

  predicate Starts(ts: seq<Token>, cs: string) { ts != [] && ts[0].Sym? && ts[0].c in cs }

  function ModeOf(c: char): nat {
    if c == '<' then O_RDONLY
    else if c == '>' then O_WRONLY + O_CREATE + O_TRUNC
    else O_WRONLY + O_CREATE
  }

  function FdOf(c: char): nat { if c == '<' then 0 else 1 }

  datatype Redirect<W> = Redirect(op: char, file: W)

  function Wrap<W>(cmd: Cmd<W>, rs: seq<Redirect<W>>): Cmd<W> {
    if rs == [] then cmd
    else var r := rs[|rs| - 1]; Redir(Wrap(cmd, rs[..|rs| - 1]), r.file, ModeOf(r.op), FdOf(r.op))
  }

  // ---- the grammar ----

  /** redirs: { ("<" | ">" | ">>") word } */
  function Redirs(ts: seq<Token>): (p: Parse<seq<Redirect<string>>>)
    ensures p.Ok? ==> |p.rest| <= |ts|
  {
    if !Starts(ts, "<>+") then Ok([], ts)
    else if |ts| < 2 || !ts[1].Word? then Panic
    else match Redirs(ts[2..])
      case Panic => Panic
      case Ok(rs, rest) => Ok([Redirect(ts[0].c, ts[1].w)] + rs, rest)
  }

  /** args: { word redirs }, at most MAXARGS - 1 words; argc counts those already read. */
  function Args(ts: seq<Token>, argc: nat): (p: Parse<(seq<string>, seq<Redirect<string>>)>)
    ensures p.Ok? ==> |p.rest| <= |ts|
    decreases |ts|
  {
    if ts == [] || Starts(ts, "|)&;") then Ok(([], []), ts)
    else if !ts[0].Word? || argc + 1 >= MAXARGS then Panic
    else match Redirs(ts[1..])
      case Panic => Panic
      case Ok(rs, ts1) =>
        match Args(ts1, argc + 1)
        case Panic => Panic
        case Ok((ws, rs1), rest) => Ok(([ts[0].w] + ws, rs + rs1), rest)
  }

  /** exec: redirs args | group */
  function ExecCmd(ts: seq<Token>): (p: Parse<Cmd<string>>)
    ensures p.Ok? ==> |p.rest| <= |ts|
    decreases |ts|, 0
  {
    if Starts(ts, "(") then Group(ts)
    else match Redirs(ts)
      case Panic => Panic
      case Ok(rs, ts1) =>
        match Args(ts1, 0)
        case Panic => Panic
        case Ok((ws, rs1), rest) => Ok(Wrap(Exec(ws), rs + rs1), rest)
  }

  /** group: "(" line ")" redirs */
  function Group(ts: seq<Token>): (p: Parse<Cmd<string>>)
    requires Starts(ts, "(")
    ensures p.Ok? ==> |p.rest| <= |ts|
    decreases |ts| - 1, 3
  {
    match Line(ts[1..])
    case Panic => Panic
    case Ok(cmd, ts1) =>
      if !Starts(ts1, ")") then Panic
      else Redirected(cmd, Redirs(ts1[1..]))
  }

  function Redirected(cmd: Cmd<string>, p: Parse<seq<Redirect<string>>>): Parse<Cmd<string>> {
    match p
    case Panic => Panic
    case Ok(rs, rest) => Ok(Wrap(cmd, rs), rest)
  }

  /** pipe: exec [ "|" pipe ] */
  function PipeCmd(ts: seq<Token>): (p: Parse<Cmd<string>>)
    ensures p.Ok? ==> |p.rest| <= |ts|
    decreases |ts|, 1
  {
    match ExecCmd(ts)
    case Panic => Panic
    case Ok(cmd, ts1) =>
      if !Starts(ts1, "|") then Ok(cmd, ts1)
      else match PipeCmd(ts1[1..])
        case Panic => Panic
        case Ok(right, rest) => Ok(Pipe(cmd, right), rest)
  }

  function Backs(cmd: Cmd<string>, ts: seq<Token>): (r: (Cmd<string>, seq<Token>))
    ensures |r.1| <= |ts|
    decreases |ts|
  {
    if Starts(ts, "&") then Backs(Back(cmd), ts[1..]) else (cmd, ts)
  }

  /** line: pipe { "&" } [ ";" line ] */
  function Line(ts: seq<Token>): (p: Parse<Cmd<string>>)
    ensures p.Ok? ==> |p.rest| <= |ts|
    decreases |ts|, 2
  {
    match PipeCmd(ts)
    case Panic => Panic
    case Ok(cmd, ts1) =>
      var (cmd1, ts2) := Backs(cmd, ts1);
      if !Starts(ts2, ";") then Ok(cmd1, ts2)
      else match Line(ts2[1..])
        case Panic => Panic
        case Ok(right, rest) => Ok(List(cmd1, right), rest)
  }

  /** parsecmd: a line and nothing after it. */
  function Command(ts: seq<Token>): Parse<Cmd<string>> {
    match Line(ts)
    case Panic => Panic
    case Ok(cmd, rest) => if rest == [] then Ok(cmd, rest) else Panic
  }

  // ---- printing ----

  /** The trees that the shell can build: redirections are one of its three kinds. */
  predicate Legal(t: Cmd<string>) {
    match t
    case Exec(ws) => |ws| < MAXARGS && forall w <- ws :: LegalWord(w)
    case Redir(c, f, mode, fd) =>
      LegalWord(f) && Legal(c) && mode == ModeOf(Op(mode, fd)) && fd == FdOf(Op(mode, fd))
    case Pipe(l, r) => Legal(l) && Legal(r)
    case List(l, r) => Legal(l) && Legal(r)
    case Back(c) => Legal(c)
  }

  predicate IsSpace(c: char) { c in " \t\r\n" || c == 11 as char }
  predicate IsSymbol(c: char) { c in "<|>&;()" }
  predicate IsWordChar(c: char) { !IsSpace(c) && !IsSymbol(c) && c != 0 as char }
  predicate LegalWord(w: string) { w != "" && forall c <- w :: IsWordChar(c) }

  function Op(mode: nat, fd: nat): char {
    if fd == 0 then '<' else if mode == ModeOf('>') then '>' else '+'
  }

  function Words(ws: seq<string>): seq<Token> {
    seq(|ws|, i requires 0 <= i < |ws| => Word(ws[i]))
  }

  function Grouped(ts: seq<Token>): seq<Token> { [Sym('(')] + ts + [Sym(')')] }

  /** Every part of a compound command in parentheses. */
  function Print(t: Cmd<string>): seq<Token> {
    match t
    case Exec(ws) => Words(ws)
    case Redir(c, f, mode, fd) => Grouped(Print(c)) + [Sym(Op(mode, fd)), Word(f)]
    case Pipe(l, r) => Grouped(Print(l)) + [Sym('|')] + Grouped(Print(r))
    case List(l, r) => Grouped(Print(l)) + [Sym(';')] + Grouped(Print(r))
    case Back(c) => Grouped(Print(c)) + [Sym('&')]
  }

  predicate Stops(rest: seq<Token>) { rest == [] || rest[0] == Sym(')') }

  lemma ArgsStep(w: string, ts: seq<Token>, argc: nat, ws: seq<string>, rest: seq<Token>)
    requires !Starts(ts, "<>+") && Args(ts, argc + 1) == Ok((ws, []), rest) && argc + 1 < MAXARGS
    ensures Args([Word(w)] + ts, argc) == Ok(([w] + ws, []), rest)
  {
    assert ([Word(w)] + ts)[1..] == ts;
    assert Redirs(ts) == Ok([], ts);
    var none: seq<Redirect<string>> := [];
    assert none + none == none;
  }

  lemma ArgsStop(rest: seq<Token>, argc: nat)
    requires Stops(rest)
    ensures Args(rest, argc) == Ok(([], []), rest)
  {
  }

  lemma WordsCons(ws: seq<string>, rest: seq<Token>)
    requires ws != []
    ensures [Word(ws[0])] + (Words(ws[1..]) + rest) == Words(ws) + rest
    ensures [ws[0]] + ws[1..] == ws
    ensures Stops(rest) ==> !Starts(Words(ws[1..]) + rest, "<>+")
  {
  }

  lemma {:induction false} ArgsOfWords(ws: seq<string>, rest: seq<Token>, argc: nat)
    requires Stops(rest) && argc + |ws| < MAXARGS
    ensures Args(Words(ws) + rest, argc) == Ok((ws, []), rest)
  {
    hide Args, Starts;
    if ws == [] {
      assert Words(ws) + rest == rest;
      ArgsStop(rest, argc);
    } else {
      ArgsOfWords(ws[1..], rest, argc + 1);
      WordsCons(ws, rest);
      ArgsStep(ws[0], Words(ws[1..]) + rest, argc, ws[1..], rest);
    }
  }

  lemma OneRedir(op: char, f: string, rest: seq<Token>)
    requires op in "<>+" && Stops(rest)
    ensures Redirs([Sym(op), Word(f)] + rest) == Ok([Redirect(op, f)], rest)
  {
    var ts := [Sym(op), Word(f)] + rest;
    assert ts[2..] == rest && Redirs(rest) == Ok([], rest);
    assert [Redirect(op, f)] + [] == [Redirect(op, f)];
  }

  // How each kind of line begins and goes on.

  lemma LineExec(ts: seq<Token>, cmd: Cmd<string>, rest: seq<Token>)
    requires ExecCmd(ts) == Ok(cmd, rest) && Stops(rest)
    ensures Line(ts) == Ok(cmd, rest)
  {
  }

  lemma LinePipe(ts: seq<Token>, l: Cmd<string>, right: seq<Token>, r: Cmd<string>, rest: seq<Token>)
    requires ExecCmd(ts) == Ok(l, [Sym('|')] + right) && ExecCmd(right) == Ok(r, rest) && Stops(rest)
    ensures Line(ts) == Ok(Pipe(l, r), rest)
  {
    assert ([Sym('|')] + right)[1..] == right;
    assert PipeCmd(right) == Ok(r, rest);
    assert PipeCmd(ts) == Ok(Pipe(l, r), rest);
  }

  lemma LineList(ts: seq<Token>, l: Cmd<string>, right: seq<Token>, r: Cmd<string>, rest: seq<Token>)
    requires ExecCmd(ts) == Ok(l, [Sym(';')] + right) && Line(right) == Ok(r, rest)
    ensures Line(ts) == Ok(List(l, r), rest)
  {
    assert ([Sym(';')] + right)[1..] == right;
  }

  lemma LineBack(ts: seq<Token>, c: Cmd<string>, rest: seq<Token>)
    requires ExecCmd(ts) == Ok(c, [Sym('&')] + rest) && Stops(rest)
    ensures Line(ts) == Ok(Back(c), rest)
  {
    assert ([Sym('&')] + rest)[1..] == rest;
    assert Backs(Back(c), rest) == (Back(c), rest);
  }

  lemma ExecOfWords(ws: seq<string>, rest: seq<Token>)
    requires |ws| < MAXARGS && Stops(rest)
    ensures ExecCmd(Words(ws) + rest) == Ok(Exec(ws), rest)
  {
    var ts := Words(ws) + rest;
    ArgsOfWords(ws, rest, 0);
    assert !Starts(ts, "(<>+");
    assert Redirs(ts) == Ok([], ts);
    var none: seq<Redirect<string>> := [];
    assert none + none == none;
  }

  /** A group, then whatever redirections follow it. */
  lemma BlockOf(t: Cmd<string>, more: seq<Token>)
    requires Line(Print(t) + ([Sym(')')] + more)) == Ok(t, [Sym(')')] + more)
    ensures ExecCmd(Grouped(Print(t)) + more) == Redirected(t, Redirs(more))
  {
    var ts := Grouped(Print(t)) + more;
    assert ts[1..] == Print(t) + ([Sym(')')] + more);
    assert ([Sym(')')] + more)[1..] == more;
    assert Starts(ts, "(");
  }

  /** A group followed by something that is not a redirection parses to the group. */
  lemma PlainBlock(t: Cmd<string>, more: seq<Token>)
    requires Line(Print(t) + ([Sym(')')] + more)) == Ok(t, [Sym(')')] + more)
    requires !Starts(more, "<>+")
    ensures ExecCmd(Grouped(Print(t)) + more) == Ok(t, more)
  {
    BlockOf(t, more);
  }

  lemma WrapOne(c: Cmd<string>, op: char, f: string)
    ensures Wrap(c, [Redirect(op, f)]) == Redir(c, f, ModeOf(op), FdOf(op))
  {
    assert [Redirect(op, f)][..0] == [];
  }

  /** t parses back from its printing, whatever follows it in a group. */
  ghost predicate ParsesBack(t: Cmd<string>, rest: seq<Token>) { Line(Print(t) + rest) == Ok(t, rest) }

  lemma PrintRedir(t: Cmd<string>, rest: seq<Token>, tail: seq<Token>)
    requires t.Redir? && Legal(t) && Stops(rest) && tail == [Sym(Op(t.mode, t.fd)), Word(t.file)] + rest
    requires ParsesBack(t.cmd, [Sym(')')] + tail)
    ensures ParsesBack(t, rest)
  {
    hide Line, ExecCmd, Redirs, Wrap;
    BlockOf(t.cmd, tail);
    OneRedir(Op(t.mode, t.fd), t.file, rest);
    WrapOne(t.cmd, Op(t.mode, t.fd), t.file);
    assert Print(t) + rest == Grouped(Print(t.cmd)) + tail;
    LineExec(Print(t) + rest, t, rest);
  }

  lemma PairTokens(t: Cmd<string>, rest: seq<Token>, c: char, right: seq<Token>)
    requires (t.Pipe? && c == '|') || (t.List? && c == ';')
    requires right == Grouped(Print(t.right)) + rest
    ensures Print(t) + rest == Grouped(Print(t.left)) + ([Sym(c)] + right)
  {
    hide Grouped;
  }

  lemma PrintPair(t: Cmd<string>, rest: seq<Token>, c: char, right: seq<Token>)
    requires (t.Pipe? && c == '|') || (t.List? && c == ';')
    requires Stops(rest) && right == Grouped(Print(t.right)) + rest
    requires ParsesBack(t.left, [Sym(')')] + ([Sym(c)] + right)) && ParsesBack(t.right, [Sym(')')] + rest)
    ensures ParsesBack(t, rest)
  {
    hide Line, ExecCmd, Redirs, Print, Grouped;
    PairTokens(t, rest, c, right);
    PlainBlock(t.left, [Sym(c)] + right);
    PlainBlock(t.right, rest);
    if c == '|' {
      LinePipe(Print(t) + rest, t.left, right, t.right, rest);
    } else {
      LineExec(right, t.right, rest);
      LineList(Print(t) + rest, t.left, right, t.right, rest);
    }
  }

  lemma PrintBack(t: Cmd<string>, rest: seq<Token>)
    requires t.Back? && Stops(rest) && ParsesBack(t.cmd, [Sym(')')] + ([Sym('&')] + rest))
    ensures ParsesBack(t, rest)
  {
    hide Line, ExecCmd, Redirs;
    PlainBlock(t.cmd, [Sym('&')] + rest);
    assert Print(t) + rest == Grouped(Print(t.cmd)) + ([Sym('&')] + rest);
    LineBack(Print(t) + rest, t.cmd, rest);
  }

  /** Parsing undoes printing, whatever follows the printed tree in a group. */
  lemma {:induction false} LineOfPrint(t: Cmd<string>, rest: seq<Token>)
    requires Legal(t) && Stops(rest)
    ensures ParsesBack(t, rest)
    decreases t
  {
    hide ParsesBack;
    match t
    case Exec(ws) => PrintExec(t, rest);
    case Redir(c, f, mode, fd) =>
      var tail := [Sym(Op(mode, fd)), Word(f)] + rest;
      LineOfPrint(c, [Sym(')')] + tail);
      PrintRedir(t, rest, tail);
    case Pipe(l, r) =>
      var right := Grouped(Print(r)) + rest;
      LineOfPrint(l, [Sym(')')] + ([Sym('|')] + right));
      LineOfPrint(r, [Sym(')')] + rest);
      PrintPair(t, rest, '|', right);
    case List(l, r) =>
      var right := Grouped(Print(r)) + rest;
      LineOfPrint(l, [Sym(')')] + ([Sym(';')] + right));
      LineOfPrint(r, [Sym(')')] + rest);
      PrintPair(t, rest, ';', right);
    case Back(c) =>
      LineOfPrint(c, [Sym(')')] + ([Sym('&')] + rest));
      PrintBack(t, rest);
  }

  lemma PrintExec(t: Cmd<string>, rest: seq<Token>)
    requires t.Exec? && Legal(t) && Stops(rest)
    ensures ParsesBack(t, rest)
  {
    hide Line, ExecCmd;
    ExecOfWords(t.argv, rest);
    LineExec(Words(t.argv) + rest, t, rest);
  }

  /** parsecmd of the parenthesised printing of a tree is the tree. */
  lemma CommandOfPrint(t: Cmd<string>)
    requires Legal(t)
    ensures Command(Print(t)) == Ok(t, [])
  {
    LineOfPrint(t, []);
    assert Print(t) + [] == Print(t);
  }
}
