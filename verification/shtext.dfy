/** The shell's language down to characters: any amount of white space anywhere between tokens,
    and none where none is needed. */
module ShText {
  import opened Basics
  import opened ShGrammar
  import opened ShLines
  import opened Sh

  /** Two tokens that run together without a space between them. */
  predicate Sticks(a: Token, b: Token) {
    (a.Word? && b.Word?) || (a == Sym('>') && (b == Sym('>') || b == Sym('+')))
  }

  /** Space, tab, carriage return, newline, vertical tab. */
  predicate White(c: char) { c == ' ' || c == '\t' || c == '\r' || c == '\n' || c == 11 as char }

  predicate Blank(g: string) { forall i :: 0 <= i < |g| ==> White(g[i]) }

  lemma WhiteIsSpace(c: char)
    ensures White(c) == IsSpace(c)
  {
  }

  /** The tokens with a gap before each and after the last. */
  function Spelled(ts: seq<Token>, gaps: seq<string>): string
    requires |gaps| == |ts| + 1
  {
    if ts == [] then gaps[0] else gaps[0] + (Spell(ts[0]) + Spelled(ts[1..], gaps[1..]))
  }

  /** The gaps are white space, and not empty between tokens that would run together. */
  ghost predicate Apart(ts: seq<Token>, gaps: seq<string>) {
    && |gaps| == |ts| + 1 && (forall i :: 0 <= i < |gaps| ==> Blank(gaps[i]))
    && (forall i :: 1 <= i < |ts| && Sticks(ts[i - 1], ts[i]) ==> gaps[i] != "")
  }

  ghost predicate LegalTokens(ts: seq<Token>) { forall i :: 0 <= i < |ts| ==> LegalToken(ts[i]) }

  lemma {:induction false} LexBlank(g: string, s: string)
    requires Blank(g)
    ensures Lex(g + s) == Lex(s)
  {
    hide Lex;
    if g == "" {
      assert g + s == s;
    } else {
      LexBlank(g[1..], s);
      WhiteIsSpace(g[0]);
      LexSpace(g[0], g[1..] + s);
      assert g + s == [g[0]] + (g[1..] + s);
    }
  }

  lemma ApartRest(ts: seq<Token>, gaps: seq<string>)
    requires Apart(ts, gaps) && LegalTokens(ts) && ts != []
    ensures Apart(ts[1..], gaps[1..]) && LegalTokens(ts[1..]) && LegalToken(ts[0]) && Blank(gaps[0])
  {
    hide Blank, LegalToken;
    var ts', gaps' := ts[1..], gaps[1..];
    forall i | 1 <= i < |ts'| && Sticks(ts'[i - 1], ts'[i]) ensures gaps'[i] != "" {
      assert Sticks(ts[i + 1 - 1], ts[i + 1]);
    }
  }

  lemma FirstChar(t: Token)
    requires LegalToken(t)
    ensures Spell(t) != "" && !IsSpace(Spell(t)[0]) && (t.Word? <==> !IsSymbol(Spell(t)[0]))
    ensures Spell(t)[0] == '>' <==> t == Sym('>') || t == Sym('+')
  {
    if t.Word? { assert t.w[0] in t.w; }
  }

  lemma SpelledNext(ts: seq<Token>, gaps: seq<string>)
    requires Apart(ts, gaps) && LegalTokens(ts) && ts != [] && gaps[0] == ""
    ensures LegalToken(ts[0]) && Spell(ts[0]) != "" && Spelled(ts, gaps) != ""
            && Spelled(ts, gaps)[0] == Spell(ts[0])[0]
  {
    hide Spell, LegalToken;
    FirstChar(ts[0]);
    assert Spelled(ts, gaps) == Spell(ts[0]) + Spelled(ts[1..], gaps[1..]);
  }

  /** What follows the first token ends it. */
  lemma SpelledFollows(ts: seq<Token>, gaps: seq<string>)
    requires Apart(ts, gaps) && LegalTokens(ts) && ts != []
    ensures Follows(ts[0], Spelled(ts[1..], gaps[1..]))
  {
    hide Spell, LegalToken, IsSpace, IsSymbol;
    var g, rest := gaps[1], Spelled(ts[1..], gaps[1..]);
    ApartRest(ts, gaps);
    if g != "" {
      WhiteIsSpace(g[0]);
      assert rest[0] == g[0] && IsSpace(g[0]);
      SpaceOnly(g[0]);
    } else if |ts| > 1 {
      assert !Sticks(ts[1 - 1], ts[1]);
      SpelledNext(ts[1..], gaps[1..]);
      FirstChar(ts[1]);
    }
  }

  lemma SpaceOnly(c: char)
    requires IsSpace(c)
    ensures c != '>'
  {
  }

  /** Scanning undoes writing, with any gaps. */
  lemma {:induction false} LexOfSpelled(ts: seq<Token>, gaps: seq<string>)
    requires Apart(ts, gaps) && LegalTokens(ts)
    ensures Lex(Spelled(ts, gaps)) == ts
    decreases |ts|
  {
    hide Lex, Spell, LegalToken, Follows, Blank, Apart, LegalTokens;
    Sizes(ts, gaps);
    if ts == [] {
      LexBlank(gaps[0], "");
      LexEmpty();
      assert gaps[0] + "" == gaps[0];
    } else {
      ApartRest(ts, gaps);
      SpelledFollows(ts, gaps);
      var rest := Spelled(ts[1..], gaps[1..]);
      LexOfSpelled(ts[1..], gaps[1..]);
      LexOne(ts[0], rest);
      LexBlank(gaps[0], Spell(ts[0]) + rest);
    }
  }

  lemma Sizes(ts: seq<Token>, gaps: seq<string>)
    requires Apart(ts, gaps)
    ensures |gaps| == |ts| + 1 && Blank(gaps[0])
  {
  }

  // ---- every text is written so ----

  lemma {:induction false} TrimGap(s: string) returns (g: string)
    ensures Blank(g) && s == g + Trim(s)
  {
    hide Blank, IsSpace;
    if s != "" && IsSpace(s[0]) {
      var h := TrimGap(s[1..]);
      g := [s[0]] + h;
      BlankMore(s[0], h);
      Assoc([s[0]], h, Trim(s[1..]));
      assert s == [s[0]] + s[1..];
    } else {
      g := "";
      NoGap(s);
    }
  }

  lemma NoGap(s: string)
    ensures Blank("") && "" + s == s
  {
  }

  lemma BlankMore(c: char, g: string)
    requires IsSpace(c) && Blank(g)
    ensures Blank([c] + g)
  {
    hide White, IsSpace;
    WhiteIsSpace(c);
  }

  lemma FirstSpelled(t: string)
    requires t != "" && !IsSpace(t[0]) && NUL !in t
    ensures LegalToken(FirstToken(t)) && Spell(FirstToken(t)) == t[..TokenLen(t)]
    ensures Follows(FirstToken(t), t[TokenLen(t)..])
  {
    var n := TokenLen(t);
    if !IsSymbol(t[0]) {
      forall c | c in t[..n] ensures IsWordChar(c) {
        var i :| 0 <= i < n && t[i] == c;
        assert t[i] in t;
      }
    }
  }

  /** A token that ends before the next one begins, with nothing between, does not stick to it. */
  lemma NotStuck(a: Token, ts: seq<Token>, gaps: seq<string>)
    requires Apart(ts, gaps) && LegalTokens(ts) && ts != [] && gaps[0] == "" && Follows(a, Spelled(ts, gaps))
    ensures !Sticks(a, ts[0])
  {
    hide Spell, LegalToken, IsSpace, IsSymbol;
    SpelledNext(ts, gaps);
    FirstChar(ts[0]);
  }

  lemma ApartMore(a: Token, g: string, ts: seq<Token>, gaps: seq<string>)
    requires Apart(ts, gaps) && LegalTokens(ts) && Blank(g) && LegalToken(a) && Follows(a, Spelled(ts, gaps))
    ensures Apart([a] + ts, [g] + gaps) && LegalTokens([a] + ts)
  {
    hide Blank, LegalToken, Follows;
    var ts', gaps' := [a] + ts, [g] + gaps;
    forall i | 1 <= i < |ts'| && Sticks(ts'[i - 1], ts'[i]) ensures gaps'[i] != "" {
      if i == 1 {
        if gaps[0] == "" { NotStuck(a, ts, gaps); }
      } else {
        assert Sticks(ts[i - 1 - 1], ts[i - 1]);
      }
    }
  }

  lemma {:induction false} Gaps(s: string) returns (gaps: seq<string>)
    requires NUL !in s
    ensures Apart(Lex(s), gaps) && LegalTokens(Lex(s)) && Spelled(Lex(s), gaps) == s
    decreases |s|
  {
    hide Spell, LegalToken, Follows, Blank, Apart, LegalTokens, TokenLen, FirstToken, Spelled, Lex, Trim, IsSpace;
    var g := TrimGap(s);
    var t := Trim(s);
    LexOfTrim(s);
    if t == "" {
      gaps := [g];
      OneGap(g);
      assert g + "" == g;
    } else {
      FirstSpelled(t);
      var a, rest := FirstToken(t), t[TokenLen(t)..];
      var more := Gaps(rest);
      ApartMore(a, g, Lex(rest), more);
      gaps := [g] + more;
      SpelledMore(a, g, Lex(rest), more);
      assert t == t[..TokenLen(t)] + rest;
    }
  }

  lemma LexOfTrim(s: string)
    requires NUL !in s
    ensures var t := Trim(s);
            && NUL !in t && |t| <= |s|
            && if t == "" then Lex(s) == []
               else !IsSpace(t[0]) && NUL !in t[TokenLen(t)..] && Lex(s) == [FirstToken(t)] + Lex(t[TokenLen(t)..])
  {
    hide TokenLen, FirstToken, IsSpace;
  }

  lemma OneGap(g: string)
    requires Blank(g)
    ensures Apart([], [g]) && LegalTokens([]) && Spelled([], [g]) == g
  {
  }

  lemma SpelledMore(a: Token, g: string, ts: seq<Token>, gaps: seq<string>)
    requires Apart(ts, gaps)
    ensures |gaps| == |ts| + 1 && Spelled([a] + ts, [g] + gaps) == g + (Spell(a) + Spelled(ts, gaps))
  {
    assert ([a] + ts)[1..] == ts && ([g] + gaps)[1..] == gaps;
  }

  // ---- the language of the shell ----

  /** Line s is text l, written with some gaps. */
  ghost predicate Writes(s: string, l: Text) {
    TextFits(l) && exists gaps :: WritesWith(s, l, gaps)
  }

  ghost predicate WritesWith(s: string, l: Text, gaps: seq<string>) {
    LegalTokens(TextTokens(l)) && Apart(TextTokens(l), gaps) && Spelled(TextTokens(l), gaps) == s
  }

  /** A line is text l exactly when its tokens are. */
  lemma WritesExact(s: string, l: Text)
    requires NUL !in s
    ensures Writes(s, l) <==> TextFits(l) && Lex(s) == TextTokens(l)
  {
    hide Lex, TextTokens, TextFits, Apart, LegalTokens, Spelled;
    if gaps :| WritesWith(s, l, gaps) { LexOfSpelled(TextTokens(l), gaps); }
    if Lex(s) == TextTokens(l) {
      var gaps := Gaps(s);
      assert WritesWith(s, l, gaps);
    }
  }

  /** parsecmd on any line.  It returns a tree exactly if the line can be read as a text, with
      white space wherever people put it, and then the tree is the meaning of every such
      reading; otherwise it panics.  Words are C strings in the buffer. */
  method ParseText(line: string) returns (p: Parser, r: Option<Cmd<Span>>)
    requires NUL !in line
    ensures fresh(p) && p.text == line
    ensures r.Some? <==> exists l :: Writes(line, l)
    ensures r.Some? ==> forall l :: Writes(line, l) ==> TreeOf(line, r.value) == TextTree(l)
    ensures r.Some? ==> forall w :: w in Spans(r.value) ==>
                          w.q < p.buf.Length && CString(p.buf[..], w.q) == Str(line, w)
  {
    hide Lex, Command, Str, CString, Writes, TextTree;
    p := new Parser(line);
    r := p.ParseCmd();
    if r.Some? {
      CommandRest(Lex(line));
      Readable(line, TreeOf(line, r.value));
    }
    forall l | Writes(line, l) ensures r.Some? && TreeOf(line, r.value) == TextTree(l) { Readings(line, l); }
  }

  lemma CommandRest(ts: seq<Token>)
    ensures Command(ts).Ok? ==> Command(ts).rest == []
  {
  }

  lemma Readings(line: string, l: Text)
    requires NUL !in line && Writes(line, l)
    ensures Command(Lex(line)) == Ok(TextTree(l), [])
  {
    hide Lex, Command, TextTokens, TextTree, TextFits, Writes;
    WritesExact(line, l);
    CommandExact(Lex(line), TextTree(l));
  }

  lemma Readable(line: string, t: Cmd<string>)
    requires NUL !in line && Command(Lex(line)) == Ok(t, [])
    ensures exists l :: Writes(line, l)
  {
    hide Lex, Command, TextTokens, TextTree, TextFits, Writes;
    CommandExact(Lex(line), t);
    var l :| TextFits(l) && TextTokens(l) == Lex(line) && TextTree(l) == t;
    WritesExact(line, l);
  }
}
