/** The shell's scanner, recursive-descent parser and NUL-termination over one
    buffer, against the token grammar. */
module Sh {
  import opened Basics
  import opened ShGrammar

  const NUL: char := 0 as char

  // ---- tokens of a string ----

  function Trim(s: string): (t: string)
    ensures |t| <= |s| && t == s[|s| - |t|..] && (t != "" ==> !IsSpace(t[0]))
  {
    if s != "" && IsSpace(s[0]) then Trim(s[1..]) else s
  }

  function WordLen(s: string): (n: nat)
    ensures n <= |s| && (forall i :: 0 <= i < n ==> !IsSpace(s[i]) && !IsSymbol(s[i]))
    ensures n < |s| ==> IsSpace(s[n]) || IsSymbol(s[n])
  {
    if s == "" || IsSpace(s[0]) || IsSymbol(s[0]) then 0 else 1 + WordLen(s[1..])
  }

  /** The length of the first token of a string that starts with one. */
  function TokenLen(t: string): (n: nat)
    requires t != "" && !IsSpace(t[0])
    ensures 1 <= n <= |t|
  {
    if !IsSymbol(t[0]) then WordLen(t)
    else if t[0] == '>' && |t| > 1 && t[1] == '>' then 2 else 1
  }

  function FirstToken(t: string): Token
    requires t != "" && !IsSpace(t[0])
  {
    if !IsSymbol(t[0]) then Word(t[..WordLen(t)])
    else if TokenLen(t) == 2 then Sym('+') else Sym(t[0])
  }

  function Lex(s: string): seq<Token>
    decreases |s|
  {
    var t := Trim(s);
    if t == "" then [] else [FirstToken(t)] + Lex(t[TokenLen(t)..])
  }

  // ---- printing tokens ----

  predicate LegalToken(t: Token) { if t.Word? then LegalWord(t.w) else t.c in "<|>&;()+" }

  function Spell(t: Token): string { if t.Word? then t.w else if t.c == '+' then ">>" else [t.c] }

  /** Each token followed by one space. */
  function Render(ts: seq<Token>): string {
    if ts == [] then "" else Spell(ts[0]) + (" " + Render(ts[1..]))
  }

  lemma {:induction false} WordLenOf(w: string, rest: string)
    requires (forall c <- w :: !IsSpace(c) && !IsSymbol(c)) && (rest == "" || IsSpace(rest[0]) || IsSymbol(rest[0]))
    ensures WordLen(w + rest) == |w|
  {
    if w == "" {
      assert w + rest == rest;
    } else {
      assert (w + rest)[1..] == w[1..] + rest;
      WordLenOf(w[1..], rest);
    }
  }

  /** Token t ends where rest begins: no word goes on, and no > becomes a >>. */
  predicate Follows(t: Token, rest: string) {
    rest == "" || if t.Word? then IsSpace(rest[0]) || IsSymbol(rest[0]) else t.c != '>' || rest[0] != '>'
  }

  lemma FirstOfSpelled(t: Token, rest: string)
    requires LegalToken(t) && Follows(t, rest)
    ensures var s := Spell(t) + rest;
            && s != "" && !IsSpace(s[0]) && FirstToken(s) == t && TokenLen(s) == |Spell(t)|
  {
    var s := Spell(t) + rest;
    if t.Word? {
      assert s[0] == t.w[0];
      WordLenOf(t.w, rest);
    }
  }

  lemma LexStep(s: string)
    requires s != "" && !IsSpace(s[0])
    ensures Lex(s) == [FirstToken(s)] + Lex(s[TokenLen(s)..])
  {
  }

  lemma LexSpace(c: char, s: string)
    requires IsSpace(c)
    ensures Lex([c] + s) == Lex(s)
  {
    assert ([c] + s)[1..] == s;
  }

  lemma LexOne(t: Token, rest: string)
    requires LegalToken(t) && Follows(t, rest)
    ensures Lex(Spell(t) + rest) == [t] + Lex(rest)
  {
    hide Lex, TokenLen, FirstToken, Spell, LegalToken, Follows;
    var s := Spell(t) + rest;
    FirstOfSpelled(t, rest);
    LexStep(s);
    assert s[|Spell(t)|..] == rest;
  }

  lemma LexEmpty()
    ensures Lex("") == []
  {
  }

  /** Scanning undoes printing. */
  lemma {:induction false} LexOfRender(ts: seq<Token>)
    requires forall t <- ts :: LegalToken(t)
    ensures Lex(Render(ts)) == ts
  {
    hide Lex, Spell, LegalToken;
    if ts == [] {
      LexEmpty();
    } else {
      var tail := Render(ts[1..]);
      LexOfRender(ts[1..]);
      LexOne(ts[0], " " + tail);
      assert " " + tail == [' '] + tail;
      LexSpace(' ', tail);
    }
  }

  lemma {:induction false} PrintLegal(t: Cmd<string>)
    requires Legal(t)
    ensures forall k <- Print(t) :: LegalToken(k)
  {
    match t
    case Exec(ws) => forall k | k in Print(t) ensures LegalToken(k) { assert k in Words(ws); }
    case Redir(c, f, mode, fd) => PrintLegal(c);
    case Pipe(l, r) => PrintLegal(l); PrintLegal(r);
    case List(l, r) => PrintLegal(l); PrintLegal(r);
    case Back(c) => PrintLegal(c);
  }

  /** The shell round trip: a command line printed from a tree parses to that tree. */
  lemma RoundTrip(t: Cmd<string>)
    requires Legal(t)
    ensures Command(Lex(Render(Print(t)))) == Ok(t, [])
  {
    PrintLegal(t);
    LexOfRender(Print(t));
    CommandOfPrint(t);
  }

  // ---- the parser ----

  /** A word in the buffer: argv and eargv, or file and efile. */
  datatype Span = Span(q: nat, eq: nat)

  /** The span is a maximal run of word characters. */
  ghost predicate SpanOk(s: string, w: Span) {
    && w.q < w.eq <= |s|
    && (forall i :: w.q <= i < w.eq ==> IsWordChar(s[i]))
    && (w.eq < |s| ==> !IsWordChar(s[w.eq]))
  }

  ghost predicate SpansOk(s: string, c: Cmd<Span>) {
    match c
    case Exec(ws) => forall w :: w in ws ==> SpanOk(s, w)
    case Redir(d, f, _, _) => SpanOk(s, f) && SpansOk(s, d)
    case Pipe(l, r) => SpansOk(s, l) && SpansOk(s, r)
    case List(l, r) => SpansOk(s, l) && SpansOk(s, r)
    case Back(d) => SpansOk(s, d)
  }

  function Str(s: string, w: Span): string { if w.q <= w.eq <= |s| then s[w.q..w.eq] else "" }

  function Strs(s: string, ws: seq<Span>): seq<string> { seq(|ws|, i requires 0 <= i < |ws| => Str(s, ws[i])) }

  /** The tree with its spans read as strings. */
  function TreeOf(s: string, c: Cmd<Span>): Cmd<string> {
    match c
    case Exec(ws) => Exec(Strs(s, ws))
    case Redir(d, f, mode, fd) => Redir(TreeOf(s, d), Str(s, f), mode, fd)
    case Pipe(l, r) => Pipe(TreeOf(s, l), TreeOf(s, r))
    case List(l, r) => List(TreeOf(s, l), TreeOf(s, r))
    case Back(d) => Back(TreeOf(s, d))
  }

  function RedirsOf(s: string, rs: seq<Redirect<Span>>): seq<Redirect<string>> {
    seq(|rs|, i requires 0 <= i < |rs| => Redirect(rs[i].op, Str(s, rs[i].file)))
  }

  lemma {:induction false} WrapTree(s: string, c: Cmd<Span>, rs: seq<Redirect<Span>>)
    ensures TreeOf(s, Wrap(c, rs)) == Wrap(TreeOf(s, c), RedirsOf(s, rs))
    ensures SpansOk(s, c) && (forall r :: r in rs ==> SpanOk(s, r.file)) ==> SpansOk(s, Wrap(c, rs))
  {
    if rs != [] {
      var most := rs[..|rs| - 1];
      WrapTree(s, c, most);
      assert RedirsOf(s, rs)[..|rs| - 1] == RedirsOf(s, most);
      assert forall r :: r in most ==> r in rs;
    }
  }

  class Parser {
    const buf: array<char>
    const es: nat
    var ps: nat
    ghost const text: string      // the command line

    ghost predicate Valid()
      reads this, buf
    {
      && |text| == es < buf.Length && ps <= es && buf[es] == NUL
      && forall i :: 0 <= i < es ==> buf[i] == text[i] != NUL
    }

    /** parsecmd's view of a line in a C string: the cursor at its start, es at its NUL. */
    constructor (line: string)
      requires NUL !in line
      ensures Valid() && ps == 0 && text == line && fresh(buf)
    {
      var b := new char[|line| + 1](i => if 0 <= i < |line| then line[i] else NUL);
      buf, es, ps, text := b, |line|, 0, line;
    }

    /** The tokens from the cursor on. */
    ghost function Tokens(): seq<Token>
      reads this
      requires ps <= |text|
    {
      Lex(text[ps..])
    }

    method SkipSpace()
      requires Valid()
      modifies this`ps
      ensures Valid() && ps >= old(ps) && text[ps..] == Trim(text[old(ps)..])
    {
      hide Trim, IsSpace;
      while ps < es && IsSpace(buf[ps])
        invariant Valid() && old(ps) <= ps && Trim(text[ps..]) == Trim(text[old(ps)..])
        decreases es - ps
      {
        TrimAt(text, ps);
        ps := ps + 1;
      }
      TrimAt(text, ps);
    }

    /** peek: skip spaces, then test whether the next token is one of the given symbols. */
    method Peek(toks: string, ghost marks: string) returns (b: bool)
      requires Valid() && Marks(toks, marks)
      modifies this`ps
      ensures Valid() && ps >= old(ps) && Tokens() == old(Tokens())
      ensures (b <==> Starts(Tokens(), marks)) && Trimmed(text[ps..])
    {
      hide Lex, Trim, Marks, Starts;
      SkipSpace();
      TrimTrim(text[old(ps)..]);
      PeekIs(text, ps, toks, marks);
      b := buf[ps] != NUL && buf[ps] in toks;
    }

    /** gettoken's switch: the cursor moves over one token. */
    method ScanToken() returns (ret: char)
      requires Valid() && ps < es && !IsSpace(buf[ps])
      modifies this`ps
      ensures Valid()
      ensures var t := text[old(ps)..];
              && ps == old(ps) + TokenLen(t)
              && ret == (match FirstToken(t) case Word(_) => 'a' case Sym(c) => c)
              && ret != NUL
    {
      ghost var s, t := text, text[ps..];
      var q := ps;
      ret := buf[ps];
      assert t[0] == ret;
      if ret in "|();&<" {
        ps := ps + 1;
      } else if ret == '>' {
        ps := ps + 1;
        assert |t| > 1 ==> t[1] == s[ps];
        if buf[ps] == '>' {
          ret := '+';
          ps := ps + 1;
        }
      } else {
        ret := 'a';
        ScanWord();
      }
    }

    method ScanWord()
      requires Valid()
      modifies this`ps
      ensures Valid() && ps == old(ps) + WordLen(text[old(ps)..])
    {
      ghost var s := text;
      while ps < es && !IsSpace(buf[ps]) && !IsSymbol(buf[ps])
        invariant Valid() && old(ps) <= ps && WordLen(s[old(ps)..]) == ps - old(ps) + WordLen(s[ps..])
        decreases es - ps
      {
        assert s[ps..][1..] == s[ps + 1..];
        ps := ps + 1;
      }
    }

    /** gettoken: the next token, where it lies, and the cursor past it. */
    method GetToken() returns (ret: char, w: Span)
      requires Valid()
      modifies this`ps
      ensures Valid() && ps >= old(ps)
      ensures ret == NUL <==> old(Tokens()) == []
      ensures ret == NUL ==> Tokens() == [] && ps == es
      ensures ret != NUL ==>
                var t := old(Tokens())[0];
                && ps > old(ps) && Tokens() == old(Tokens())[1..]
                && (if t.Word? then ret == 'a' && SpanOk(text, w) && Str(text, w) == t.w
                    else ret == t.c && t.c != 'a')
    {
      hide Lex, Trim, FirstToken, TokenLen, WordLen, SpanOk;
      ghost var s := text;
      SkipSpace();
      LexTrim(s[old(ps)..]);
      var q := ps;
      if buf[ps] == NUL {
        return NUL, Span(q, q);
      }
      ghost var t := s[q..];
      FirstFacts(s, q);
      ret := ScanToken();
      w := Span(q, ps);
      assert t[TokenLen(t)..] == s[w.eq..];
      SkipSpace();
      LexTrim(s[w.eq..]);
    }

    method ParseRedirs() returns (r: Option<seq<Redirect<Span>>>)
      requires Valid()
      modifies this`ps
      ensures Valid() && ps >= old(ps)
      ensures match Redirs(old(Tokens()))
              case Panic => r.None?
              case Ok(rs, rest) => r.Some? && RedirsOf(text, r.value) == rs && Tokens() == rest
                                   && forall x :: x in r.value ==> SpanOk(text, x.file)
    {
      hide Lex, SpanOk, IsSymbol;
      var acc: seq<Redirect<Span>> := [];
      RedirsStart(text, old(Tokens()));
      while true
        invariant Valid() && ps >= old(ps)
        invariant AddRedirs(RedirsOf(text, acc), Redirs(Tokens())) == Redirs(old(Tokens()))
        invariant forall x :: x in acc ==> SpanOk(text, x.file)
        decreases es - ps
      {
        RedirMarks();
        var more := Peek("<>", "<>+");
        ghost var ts := Tokens();
        if !more {
          RedirsEnd(text, acc, ts);
          return Some(acc);
        }
        var tok, _ := GetToken();
        var ret, w := GetToken();
        if ret != 'a' { RedirsPanic(text, acc, ts); return None; }
        RedirsMore(text, acc, ts, Redirect(tok, w));
        acc := acc + [Redirect(tok, w)];
      }
    }

    /** parseexec's argument loop. */
    method ParseArgs() returns (r: Option<(seq<Span>, seq<Redirect<Span>>)>)
      requires Valid()
      modifies this`ps
      ensures Valid() && ps >= old(ps)
      ensures match Args(old(Tokens()), 0)
              case Panic => r.None?
              case Ok(v, rest) =>
                && r.Some? && Strs(text, r.value.0) == v.0 && RedirsOf(text, r.value.1) == v.1 && Tokens() == rest
                && (forall w :: w in r.value.0 ==> SpanOk(text, w))
                && (forall x :: x in r.value.1 ==> SpanOk(text, x.file))
    {
      hide Lex, SpanOk, Args, AddArgs, Marks, Str;
      var argv: seq<Span>, acc: seq<Redirect<Span>> := [], [];
      ArgsStart(text, Tokens());
      while true
        invariant Valid() && ps >= old(ps)
        invariant AddArgs(Strs(text, argv), RedirsOf(text, acc), Args(Tokens(), |argv|)) == Args(old(Tokens()), 0)
        invariant forall w :: w in argv ==> SpanOk(text, w)
        invariant forall x :: x in acc ==> SpanOk(text, x.file)
        decreases es - ps
      {
        StopMarks();
        ghost var ts := Tokens();
        var stop := Peek("|)&;", "|)&;");
        if stop { ArgsEnd(text, argv, acc, ts); return Some((argv, acc)); }
        var tok, w := GetToken();
        if tok == NUL { ArgsEnd(text, argv, acc, ts); return Some((argv, acc)); }
        if tok != 'a' || |argv| + 1 >= MAXARGS {
          ArgsPanic(text, argv, acc, ts);
          return None;
        }
        ghost var was := argv;
        argv := argv + [w];
        var rs := ParseRedirs();
        if rs.None? { ArgsRedirPanic(text, was, acc, ts); return None; }
        ArgsMore(text, was, acc, ts, w, rs.value, Tokens());
        acc := acc + rs.value;
      }
    }

    method ParseExec() returns (r: Option<Cmd<Span>>)
      requires Valid()
      modifies this`ps
      ensures Valid() && ps >= old(ps) && Agrees(text, r, ExecCmd(old(Tokens())), Tokens())
      decreases es - ps, 1
    {
      hide Lex, SpanOk, Args, Redirs, Marks, Str, Wrap, Group;
      ParenMarks();
      var paren := Peek("(", "(");
      if paren {
        r := ParseBlock();
        return;
      }
      var rs := ParseRedirs();
      if rs.None? { return None; }
      var as1 := ParseArgs();
      if as1.None? { return None; }
      var (argv, more) := as1.value;
      ExecTree(text, argv, rs.value, more);
      return Some(Wrap(Exec(argv), rs.value + more));
    }

    method ParseBlock() returns (r: Option<Cmd<Span>>)
      requires Valid() && Starts(Tokens(), "(")
      modifies this`ps
      ensures Valid() && ps >= old(ps) && Agrees(text, r, Group(old(Tokens())), Tokens())
      decreases es - ps, 0
    {
      hide Lex, SpanOk, Redirs, Marks, Str, Wrap, Line;
      var _, _ := GetToken();
      r := ParseLine();
      if r.None? { return; }
      ParenMarks();
      var close := Peek(")", ")");
      if !close { return None; }
      var _, _ := GetToken();
      var rs := ParseRedirs();
      if rs.None? { return None; }
      WrapTree(text, r.value, rs.value);
      r := Some(Wrap(r.value, rs.value));
    }

    method ParsePipe() returns (r: Option<Cmd<Span>>)
      requires Valid()
      modifies this`ps
      ensures Valid() && ps >= old(ps) && Agrees(text, r, PipeCmd(old(Tokens())), Tokens())
      decreases es - ps, 2
    {
      hide Lex, SpanOk, Marks, Str, ExecCmd;
      r := ParseExec();
      if r.None? { return; }
      ParenMarks();
      var bar := Peek("|", "|");
      if bar {
        var _, _ := GetToken();
        var right := ParsePipe();
        if right.None? { return None; }
        r := Some(Pipe(r.value, right.value));
      }
    }

    method ParseLine() returns (r: Option<Cmd<Span>>)
      requires Valid()
      modifies this`ps
      ensures Valid() && ps >= old(ps) && Agrees(text, r, Line(old(Tokens())), Tokens())
      decreases es - ps, 3
    {
      hide Lex, SpanOk, Marks, Str, PipeCmd;
      r := ParsePipe();
      if r.None? { return; }
      ParenMarks();
      ghost var cmd0, ts0 := TreeOf(text, r.value), Tokens();
      var cmd := r.value;
      var amp := Peek("&", "&");
      while amp
        invariant Valid() && ps >= old(ps) && SpansOk(text, cmd)
        invariant amp <==> Starts(Tokens(), "&")
        invariant Backs(TreeOf(text, cmd), Tokens()) == Backs(cmd0, ts0)
        decreases es - ps
      {
        var _, _ := GetToken();
        cmd := Back(cmd);
        amp := Peek("&", "&");
      }
      r := Some(cmd);
      var semi := Peek(";", ";");
      if semi {
        var _, _ := GetToken();
        var right := ParseLine();
        if right.None? { return None; }
        r := Some(List(cmd, right.value));
      }
    }

    /** nulterminate: a NUL at the end of every word, and nothing else written. */
    method NulTerminate(c: Cmd<Span>)
      requires forall w :: w in Spans(c) ==> w.eq < buf.Length
      modifies buf
      ensures forall k :: 0 <= k < buf.Length ==> buf[k] == if k in Ends(c) then NUL else old(buf[k])
      decreases c
    {
      match c
      case Exec(argv) =>
        var i := 0;
        while i < |argv|
          invariant 0 <= i <= |argv|
          invariant forall k :: 0 <= k < buf.Length ==>
                      buf[k] == if exists j :: 0 <= j < i && argv[j].eq == k then NUL else old(buf[k])
        {
          assert argv[i] in Spans(c);
          buf[argv[i].eq] := NUL;
          i := i + 1;
        }
        ExecEnds(argv);
      case Redir(d, file, _, _) =>
        assert file in Spans(c);
        SubEnds(c);
        NulTerminate(d);
        buf[file.eq] := NUL;
      case Pipe(l, r) =>
        SubEnds(c);
        NulTerminate(l);
        NulTerminate(r);
      case List(l, r) =>
        SubEnds(c);
        NulTerminate(l);
        NulTerminate(r);
      case Back(d) =>
        SubEnds(c);
        NulTerminate(d);
    }

    /** parsecmd: the grammar's tree for the line, or a panic; and each word of the
        tree is now the C string that starts at its first character. */
    method ParseCmd() returns (r: Option<Cmd<Span>>)
      requires Valid() && ps == 0
      modifies this`ps, buf
      ensures match Command(Lex(text))
              case Panic => r.None?
              case Ok(c, _) =>
                && r.Some? && TreeOf(text, r.value) == c
                && forall w :: w in Spans(r.value) ==> w.q < buf.Length && CString(buf[..], w.q) == Str(text, w)
    {
      hide Lex, SpansOk, Line, Str, CString, Ends;
      assert text[0..] == text;
      r := ParseLine();
      if r.None? { return; }
      NoMarks();
      var _ := Peek("", "");
      if ps != es {
        TokensLeft(text, ps);
        return None;
      }
      assert text[ps..] == "";
      LexEmpty();
      InBuffer(text, r.value);
      NulTerminate(r.value);
      forall w | w in Spans(r.value) ensures w.q < buf.Length && CString(buf[..], w.q) == Str(text, w) {
        Terminated(text, r.value, buf[..], w);
      }
    }
  }

  lemma {:induction false} RenderNoNul(ts: seq<Token>)
    requires forall t <- ts :: LegalToken(t)
    ensures NUL !in Render(ts)
  {
    if ts != [] {
      RenderNoNul(ts[1..]);
      assert LegalToken(ts[0]);
      assert NUL !in Spell(ts[0]);
    }
  }

  /** The round trip through the code: a tree is written out as a line, the line is put into a
      buffer and parsed.  The tree comes back, with every word a C string in the buffer. */
  method PrintThenParse(t: Cmd<string>) returns (p: Parser, r: Option<Cmd<Span>>)
    requires Legal(t)
    ensures fresh(p) && p.text == Render(Print(t))
    ensures r.Some? && TreeOf(p.text, r.value) == t
    ensures forall w :: w in Spans(r.value) ==> w.q < p.buf.Length && CString(p.buf[..], w.q) == Str(p.text, w)
  {
    hide Lex, Render, Print, Str, CString;
    PrintLegal(t);
    RenderNoNul(Print(t));
    RoundTrip(t);
    p := new Parser(Render(Print(t)));
    r := p.ParseCmd();
  }

  // ---- words as C strings ----

  function Spans(c: Cmd<Span>): set<Span> {
    match c
    case Exec(ws) => set w | w in ws
    case Redir(d, f, _, _) => Spans(d) + {f}
    case Pipe(l, r) => Spans(l) + Spans(r)
    case List(l, r) => Spans(l) + Spans(r)
    case Back(d) => Spans(d)
  }

  function Ends(c: Cmd<Span>): set<nat> { set w | w in Spans(c) :: w.eq }

  /** The string at address i: up to the first NUL. */
  function CString(b: seq<char>, i: nat): string
    decreases |b| - i
  {
    if i >= |b| || b[i] == NUL then "" else [b[i]] + CString(b, i + 1)
  }

  lemma ExecEnds(argv: seq<Span>)
    ensures forall k :: k in Ends(Exec(argv)) <==> exists j :: 0 <= j < |argv| && argv[j].eq == k
  {
    forall j | 0 <= j < |argv| ensures argv[j].eq in Ends(Exec(argv)) { assert argv[j] in Spans(Exec(argv)); }
  }

  lemma SubEnds(c: Cmd<Span>)
    ensures match c
            case Exec(_) => true
            case Redir(d, f, _, _) => Ends(c) == Ends(d) + {f.eq}
            case Pipe(l, r) => Ends(c) == Ends(l) + Ends(r)
            case List(l, r) => Ends(c) == Ends(l) + Ends(r)
            case Back(d) => Ends(c) == Ends(d)
  {
  }

  lemma NoMarks()
    ensures Marks("", "")
  {
  }

  lemma TokensLeft(s: string, q: nat)
    requires q < |s| && Trimmed(s[q..])
    ensures Lex(s[q..]) != []
  {
    LexStep(s[q..]);
  }

  lemma {:induction false} SpansIn(s: string, c: Cmd<Span>)
    requires SpansOk(s, c)
    ensures forall w :: w in Spans(c) ==> SpanOk(s, w)
  {
    match c
    case Exec(ws) =>
    case Redir(d, f, _, _) => SpansIn(s, d);
    case Pipe(l, r) => SpansIn(s, l); SpansIn(s, r);
    case List(l, r) => SpansIn(s, l); SpansIn(s, r);
    case Back(d) => SpansIn(s, d);
  }

  lemma InBuffer(s: string, c: Cmd<Span>)
    requires SpansOk(s, c)
    ensures forall w :: w in Spans(c) ==> w.q < w.eq <= |s|
  {
    SpansIn(s, c);
  }

  lemma {:induction false} CStringIs(b: seq<char>, q: nat, e: nat)
    requires q <= e < |b| && b[e] == NUL && forall k :: q <= k < e ==> b[k] != NUL
    ensures CString(b, q) == b[q..e]
    decreases e - q
  {
    if q < e {
      CStringIs(b, q + 1, e);
      assert b[q..e] == [b[q]] + b[q + 1..e];
    }
  }

  /** No terminator falls inside a word, because a word ends where word characters do. */
  lemma Untouched(s: string, c: Cmd<Span>, w: Span, k: nat)
    requires SpansOk(s, c) && w in Spans(c) && w.q <= k < w.eq
    ensures SpanOk(s, w) && k !in Ends(c) && k < |s| && s[k] != NUL
  {
    SpansIn(s, c);
    assert IsWordChar(s[k]);
  }

  lemma Terminated(s: string, c: Cmd<Span>, b: seq<char>, w: Span)
    requires SpansOk(s, c) && w in Spans(c) && |s| < |b| && b[|s|] == NUL
    requires forall k :: 0 <= k < |s| ==> b[k] == if k in Ends(c) then NUL else s[k]
    ensures w.q < |b| && CString(b, w.q) == Str(s, w)
  {
    hide SpansOk, Spans, CString;
    InBuffer(s, c);
    assert w.eq in Ends(c);
    forall k | w.q <= k < w.eq ensures b[k] == s[k] != NUL { Untouched(s, c, w, k); }
    CStringIs(b, w.q, w.eq);
    assert b[w.q..w.eq] == s[w.q..w.eq];
  }

  /** A method's answer is the grammar's: the same tree, the same tokens left over. */
  ghost predicate Agrees(s: string, r: Option<Cmd<Span>>, p: Parse<Cmd<string>>, rest: seq<Token>) {
    match p
    case Panic => r.None?
    case Ok(c, ts) => r.Some? && TreeOf(s, r.value) == c && SpansOk(s, r.value) && rest == ts
  }

  lemma ParenMarks()
    ensures Marks("(", "(") && Marks(")", ")") && Marks("|", "|") && Marks("&", "&") && Marks(";", ";")
  {
  }

  lemma StopMarks()
    ensures Marks("|)&;", "|)&;")
  {
  }

  lemma ExecTree(s: string, argv: seq<Span>, rs: seq<Redirect<Span>>, more: seq<Redirect<Span>>)
    requires forall w :: w in argv ==> SpanOk(s, w)
    requires forall x :: x in rs || x in more ==> SpanOk(s, x.file)
    ensures var c := Wrap(Exec(argv), rs + more);
            TreeOf(s, c) == Wrap(Exec(Strs(s, argv)), RedirsOf(s, rs) + RedirsOf(s, more)) && SpansOk(s, c)
  {
    hide Wrap, SpanOk, Str;
    WrapTree(s, Exec(argv), rs + more);
    assert RedirsOf(s, rs + more) == RedirsOf(s, rs) + RedirsOf(s, more);
  }

  // How the argument loop builds what the grammar describes.

  function AddArgs(ws: seq<string>, rs: seq<Redirect<string>>, p: Parse<(seq<string>, seq<Redirect<string>>)>)
    : Parse<(seq<string>, seq<Redirect<string>>)>
  {
    match p
    case Panic => Panic
    case Ok(v, rest) => Ok((ws + v.0, rs + v.1), rest)
  }

  lemma ArgsStart(s: string, ts: seq<Token>)
    ensures AddArgs(Strs(s, []), RedirsOf(s, []), Args(ts, 0)) == Args(ts, 0)
  {
    if Args(ts, 0).Ok? {
      var v := Args(ts, 0).value;
      assert Strs(s, []) + v.0 == v.0 && RedirsOf(s, []) + v.1 == v.1;
    }
  }

  lemma ArgsEnd(s: string, argv: seq<Span>, acc: seq<Redirect<Span>>, ts: seq<Token>)
    requires ts == [] || Starts(ts, "|)&;")
    ensures AddArgs(Strs(s, argv), RedirsOf(s, acc), Args(ts, |argv|)) == Ok((Strs(s, argv), RedirsOf(s, acc)), ts)
  {
    assert Strs(s, argv) + [] == Strs(s, argv) && RedirsOf(s, acc) + [] == RedirsOf(s, acc);
  }

  lemma ArgsPanic(s: string, argv: seq<Span>, acc: seq<Redirect<Span>>, ts: seq<Token>)
    requires ts != [] && !Starts(ts, "|)&;") && (!ts[0].Word? || |argv| + 1 >= MAXARGS)
    ensures AddArgs(Strs(s, argv), RedirsOf(s, acc), Args(ts, |argv|)) == Panic
  {
  }

  lemma ArgsRedirPanic(s: string, argv: seq<Span>, acc: seq<Redirect<Span>>, ts: seq<Token>)
    requires ts != [] && ts[0].Word? && |argv| + 1 < MAXARGS && Redirs(ts[1..]).Panic?
    ensures AddArgs(Strs(s, argv), RedirsOf(s, acc), Args(ts, |argv|)) == Panic
  {
  }

  lemma ArgsUnfold(ts: seq<Token>, argc: nat)
    requires ts != [] && ts[0].Word? && argc + 1 < MAXARGS && Redirs(ts[1..]).Ok?
    ensures Args(ts, argc) == AddArgs([ts[0].w], Redirs(ts[1..]).value, Args(Redirs(ts[1..]).rest, argc + 1))
  {
  }

  lemma AddArgsTwice(a: seq<string>, b: seq<string>, x: seq<Redirect<string>>, y: seq<Redirect<string>>,
                     p: Parse<(seq<string>, seq<Redirect<string>>)>)
    ensures AddArgs(a, x, AddArgs(b, y, p)) == AddArgs(a + b, x + y, p)
  {
    if p.Ok? {
      assert a + b + p.value.0 == a + (b + p.value.0) && x + y + p.value.1 == x + (y + p.value.1);
    }
  }

  lemma ArgsMore(s: string, argv: seq<Span>, acc: seq<Redirect<Span>>, ts: seq<Token>, w: Span,
                 rs: seq<Redirect<Span>>, rest: seq<Token>)
    requires ts != [] && ts[0].Word? && |argv| + 1 < MAXARGS && Str(s, w) == ts[0].w
    requires Redirs(ts[1..]) == Ok(RedirsOf(s, rs), rest)
    ensures AddArgs(Strs(s, argv), RedirsOf(s, acc), Args(ts, |argv|))
         == AddArgs(Strs(s, argv + [w]), RedirsOf(s, acc + rs), Args(rest, |argv + [w]|))
  {
    hide Args, AddArgs, Redirs, Str;
    ArgsUnfold(ts, |argv|);
    AddArgsTwice(Strs(s, argv), [ts[0].w], RedirsOf(s, acc), RedirsOf(s, rs), Args(rest, |argv| + 1));
    assert Strs(s, argv + [w]) == Strs(s, argv) + [ts[0].w];
    assert RedirsOf(s, acc + rs) == RedirsOf(s, acc) + RedirsOf(s, rs);
  }

  // How the loop of parseredirs builds what the grammar describes.

  function AddRedirs(rs: seq<Redirect<string>>, p: Parse<seq<Redirect<string>>>): Parse<seq<Redirect<string>>> {
    match p
    case Panic => Panic
    case Ok(more, rest) => Ok(rs + more, rest)
  }

  lemma RedirMarks()
    ensures Marks("<>", "<>+")
  {
  }

  lemma RedirsStart(s: string, ts: seq<Token>)
    ensures AddRedirs(RedirsOf(s, []), Redirs(ts)) == Redirs(ts)
  {
    if Redirs(ts).Ok? { assert RedirsOf(s, []) + Redirs(ts).value == Redirs(ts).value; }
  }

  lemma RedirsEnd(s: string, acc: seq<Redirect<Span>>, ts: seq<Token>)
    requires !Starts(ts, "<>+")
    ensures AddRedirs(RedirsOf(s, acc), Redirs(ts)) == Ok(RedirsOf(s, acc), ts)
  {
    assert RedirsOf(s, acc) + [] == RedirsOf(s, acc);
  }

  lemma RedirsPanic(s: string, acc: seq<Redirect<Span>>, ts: seq<Token>)
    requires Starts(ts, "<>+") && (|ts| < 2 || !ts[1].Word?)
    ensures AddRedirs(RedirsOf(s, acc), Redirs(ts)) == Panic
  {
  }

  lemma RedirsUnfold(ts: seq<Token>)
    requires Starts(ts, "<>+") && |ts| >= 2 && ts[1].Word?
    ensures Redirs(ts) == AddRedirs([Redirect(ts[0].c, ts[1].w)], Redirs(ts[2..]))
  {
  }

  lemma AddRedirsTwice(a: seq<Redirect<string>>, b: seq<Redirect<string>>, p: Parse<seq<Redirect<string>>>)
    ensures AddRedirs(a, AddRedirs(b, p)) == AddRedirs(a + b, p)
  {
    if p.Ok? { assert a + b + p.value == a + (b + p.value); }
  }

  lemma RedirsOfSnoc(s: string, acc: seq<Redirect<Span>>, r: Redirect<Span>)
    ensures RedirsOf(s, acc + [r]) == RedirsOf(s, acc) + [Redirect(r.op, Str(s, r.file))]
  {
  }

  lemma RedirsMore(s: string, acc: seq<Redirect<Span>>, ts: seq<Token>, r: Redirect<Span>)
    requires Starts(ts, "<>+") && |ts| >= 2 && ts[1].Word? && r.op == ts[0].c && Str(s, r.file) == ts[1].w
    ensures AddRedirs(RedirsOf(s, acc), Redirs(ts)) == AddRedirs(RedirsOf(s, acc + [r]), Redirs(ts[1..][1..]))
  {
    hide Redirs, AddRedirs, RedirsOf, Str;
    assert ts[1..][1..] == ts[2..];
    RedirsUnfold(ts);
    RedirsOfSnoc(s, acc, r);
    AddRedirsTwice(RedirsOf(s, acc), [Redirect(ts[0].c, ts[1].w)], Redirs(ts[2..]));
  }

  /** What the first token of a trimmed rest of the line looks like in the line. */
  lemma FirstFacts(s: string, q: nat)
    requires q < |s| && !IsSpace(s[q]) && forall i :: 0 <= i < |s| ==> s[i] != NUL
    ensures var t := s[q..];
            match FirstToken(t)
            case Word(w) => SpanOk(s, Span(q, q + TokenLen(t))) && Str(s, Span(q, q + TokenLen(t))) == w
            case Sym(c) => c != 'a'
  {
    var t := s[q..];
    if FirstToken(t).Word? {
      var n := WordLen(t);
      assert t[..n] == s[q..q + n];
      forall i | q <= i < q + n ensures IsWordChar(s[i]) { assert s[i] == t[i - q]; }
      assert n < |t| ==> s[q + n] == t[n];
    }
  }

  lemma TrimAt(s: string, i: nat)
    requires i <= |s|
    ensures Trim(s[i..]) == if i < |s| && IsSpace(s[i]) then Trim(s[i + 1..]) else s[i..]
  {
    if i < |s| { assert s[i..][1..] == s[i + 1..]; }
  }

  /** The symbols that a set of characters begins; `>` also begins `>>`. */
  ghost predicate Marks(toks: string, marks: string) {
    || (toks == "<>" && marks == "<>+")
    || (toks == marks && forall c <- toks :: IsSymbol(c) && c != '>')
  }

  lemma PeekIs(s: string, q: nat, toks: string, marks: string)
    requires q <= |s| && Trimmed(s[q..]) && Marks(toks, marks)
    ensures Starts(Lex(s[q..]), marks) <==> q < |s| && s[q] in toks
  {
    hide Lex, FirstToken, TokenLen;
    var t := s[q..];
    if t == "" {
      LexEmpty();
    } else {
      assert t[0] == s[q];
      LexStep(t);
      FirstSym(t);
    }
  }

  lemma FirstSym(t: string)
    requires t != "" && !IsSpace(t[0])
    ensures FirstToken(t).Word? <==> !IsSymbol(t[0])
    ensures FirstToken(t).Sym? ==> FirstToken(t).c == t[0] || (t[0] == '>' && FirstToken(t).c == '+')
  {
  }

  predicate Trimmed(t: string) { t == "" || !IsSpace(t[0]) }

  lemma TrimTrim(s: string)
    ensures Trim(Trim(s)) == Trim(s) && Lex(Trim(s)) == Lex(s) && Trimmed(Trim(s))
  {
  }

  /** Scanning starts at the first character that is not a space. */
  lemma LexTrim(s: string)
    ensures Lex(Trim(s)) == Lex(s)
    ensures Trim(s) == "" ==> Lex(s) == []
    ensures Trim(s) != "" ==> Lex(s) == [FirstToken(Trim(s))] + Lex(Trim(s)[TokenLen(Trim(s))..])
  {
    TrimTrim(s);
  }
}
