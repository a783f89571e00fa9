/** Command lines as people write them: redirections before, between and after the words of a
    simple command, pipes, lists and & without parentheses.  The parser accepts exactly these,
    and gives each the tree that its reading order says. */
module ShLines {
  import opened Basics
  import opened ShGrammar

  datatype Kind = In | Out | Append

  datatype Redirection = Redirection(kind: Kind, file: string)

  /** A word of a simple command, or a redirection standing among the words. */
  datatype Item = Arg(w: string) | Aim(r: Redirection)

  /** A simple command, or a line in parentheses with the redirections after it. */
  datatype Simple = Plain(items: seq<Item>) | Paren(line: Text, rs: seq<Redirection>)

  /** a | b | c */
  datatype Piped = One(a: Simple) | Into(a: Simple, more: Piped)

  /** p & & ; q ; r & */
  datatype Text = Last(p: Piped, amps: nat) | Then(p: Piped, amps: nat, more: Text)

  // ---- how it is written ----

  function Written(r: Redirection): seq<Token> {
    match r.kind
    case In => [Sym('<'), Word(r.file)]
    case Out => [Sym('>'), Word(r.file)]
    case Append => [Sym('+'), Word(r.file)]
  }

  function AimTokens(rs: seq<Redirection>): seq<Token> {
    if rs == [] then [] else Written(rs[0]) + AimTokens(rs[1..])
  }

  function ItemToken(i: Item): seq<Token> { if i.Arg? then [Word(i.w)] else Written(i.r) }

  function ItemTokens(items: seq<Item>): seq<Token> {
    if items == [] then [] else ItemToken(items[0]) + ItemTokens(items[1..])
  }

  function SimpleTokens(a: Simple): seq<Token> {
    match a
    case Plain(items) => ItemTokens(items)
    case Paren(line, rs) => [Sym('(')] + (TextTokens(line) + ([Sym(')')] + AimTokens(rs)))
  }

  function PipedTokens(p: Piped): seq<Token> {
    match p
    case One(a) => SimpleTokens(a)
    case Into(a, more) => SimpleTokens(a) + ([Sym('|')] + PipedTokens(more))
  }

  function Amps(n: nat): seq<Token> { seq(n, _ => Sym('&')) }

  function TextTokens(l: Text): seq<Token> {
    match l
    case Last(p, amps) => PipedTokens(p) + Amps(amps)
    case Then(p, amps, more) => PipedTokens(p) + (Amps(amps) + ([Sym(';')] + TextTokens(more)))
  }

  // ---- what it means ----

  /** The flags of fcntl.h: 0x001 write only, 0x200 create, 0x400 truncate. */
  function Aimed(c: Cmd<string>, r: Redirection): Cmd<string> {
    match r.kind
    case In => Redir(c, r.file, 0x000, 0)
    case Out => Redir(c, r.file, 0x601, 1)
    case Append => Redir(c, r.file, 0x201, 1)
  }

  /** The first redirection is the innermost. */
  function AimedAll(c: Cmd<string>, rs: seq<Redirection>): Cmd<string> {
    if rs == [] then c else Aimed(AimedAll(c, rs[..|rs| - 1]), rs[|rs| - 1])
  }

  function ArgsOf(items: seq<Item>): seq<string> {
    if items == [] then [] else (if items[0].Arg? then [items[0].w] else []) + ArgsOf(items[1..])
  }

  function AimsOf(items: seq<Item>): seq<Redirection> {
    if items == [] then [] else (if items[0].Aim? then [items[0].r] else []) + AimsOf(items[1..])
  }

  function SimpleTree(a: Simple): Cmd<string> {
    match a
    case Plain(items) => AimedAll(Exec(ArgsOf(items)), AimsOf(items))
    case Paren(line, rs) => AimedAll(TextTree(line), rs)
  }

  function PipedTree(p: Piped): Cmd<string> {
    match p
    case One(a) => SimpleTree(a)
    case Into(a, more) => Pipe(SimpleTree(a), PipedTree(more))
  }

  function Backed(c: Cmd<string>, n: nat): Cmd<string> { if n == 0 then c else Back(Backed(c, n - 1)) }

  function TextTree(l: Text): Cmd<string> {
    match l
    case Last(p, amps) => Backed(PipedTree(p), amps)
    case Then(p, amps, more) => List(Backed(PipedTree(p), amps), TextTree(more))
  }

  /** At most nine words in a simple command. */
  predicate SimpleFits(a: Simple) {
    match a
    case Plain(items) => |ArgsOf(items)| < 10
    case Paren(line, _) => TextFits(line)
  }

  predicate PipedFits(p: Piped) {
    match p
    case One(a) => SimpleFits(a)
    case Into(a, more) => SimpleFits(a) && PipedFits(more)
  }

  predicate TextFits(l: Text) {
    match l
    case Last(p, _) => PipedFits(p)
    case Then(p, _, more) => PipedFits(p) && TextFits(more)
  }

  // ---- redirections ----

  /** The redirection as the grammar records it. */
  function Head(r: Redirection): Redirect<string> {
    Redirect(match r.kind case In => '<' case Out => '>' case Append => '+', r.file)
  }

  function Heads(rs: seq<Redirection>): seq<Redirect<string>> {
    seq(|rs|, i requires 0 <= i < |rs| => Head(rs[i]))
  }

  lemma {:induction false} WrapHeads(c: Cmd<string>, rs: seq<Redirection>)
    ensures Wrap(c, Heads(rs)) == AimedAll(c, rs)
  {
    if rs != [] {
      var n := |rs| - 1;
      WrapHeads(c, rs[..n]);
      assert Heads(rs)[..n] == Heads(rs[..n]);
    }
  }

  lemma HeadsConcat(a: seq<Redirection>, b: seq<Redirection>)
    ensures Heads(a + b) == Heads(a) + Heads(b)
  {
    hide Head;
  }

  lemma HeadsOne(r: Redirection)
    ensures Heads([]) == [] && Heads([r]) == [Head(r)]
  {
    hide Head;
  }

  lemma Assoc<T>(a: seq<T>, b: seq<T>, c: seq<T>)
    ensures a + b + c == a + (b + c)
  {
  }

  /** Items one by one. */
  lemma ItemsCons(i: Item, items: seq<Item>)
    ensures ItemTokens([i] + items) == ItemToken(i) + ItemTokens(items)
    ensures ArgsOf([i] + items) == if i.Arg? then [i.w] + ArgsOf(items) else ArgsOf(items)
    ensures AimsOf([i] + items) == if i.Aim? then [i.r] + AimsOf(items) else AimsOf(items)
  {
    hide ItemToken;
    assert ([i] + items)[1..] == items;
    assert [] + ArgsOf(items) == ArgsOf(items) && [] + AimsOf(items) == AimsOf(items);
  }

  lemma NoItems()
    ensures ItemTokens([]) == [] && ArgsOf([]) == [] && AimsOf([]) == []
  {
  }

  lemma AimsCons(r: Redirection, rs: seq<Redirection>)
    ensures AimTokens([r] + rs) == Written(r) + AimTokens(rs) && Heads([r] + rs) == [Head(r)] + Heads(rs)
  {
    hide Written, Head;
    assert ([r] + rs)[1..] == rs;
  }

  /** What may follow a simple command. */
  predicate Ends(rest: seq<Token>) { rest == [] || Starts(rest, "|)&;") }

  lemma RedirsOne(r: Redirection, ts: seq<Token>, rs: seq<Redirect<string>>, rest: seq<Token>)
    requires Redirs(ts) == Ok(rs, rest)
    ensures Redirs(Written(r) + ts) == Ok([Head(r)] + rs, rest)
  {
    assert (Written(r) + ts)[2..] == ts;
  }

  lemma {:induction false} RedirsOfAims(rs: seq<Redirection>, rest: seq<Token>)
    requires !Starts(rest, "<>+")
    ensures Redirs(AimTokens(rs) + rest) == Ok(Heads(rs), rest)
  {
    hide Redirs, Written, Head;
    if rs == [] {
      assert AimTokens(rs) + rest == rest;
      RedirsNone(rest);
    } else {
      RedirsOfAims(rs[1..], rest);
      RedirsOne(rs[0], AimTokens(rs[1..]) + rest, Heads(rs[1..]), rest);
      assert AimTokens(rs) + rest == Written(rs[0]) + (AimTokens(rs[1..]) + rest);
      assert Heads(rs) == [Head(rs[0])] + Heads(rs[1..]);
    }
  }

  lemma RedirsNone(ts: seq<Token>)
    requires !Starts(ts, "<>+")
    ensures Redirs(ts) == Ok([], ts)
  {
  }

  // ---- simple commands ----

  /** How many redirections come first. */
  function Lead(items: seq<Item>): (k: nat)
    ensures k <= |items|
  {
    if items == [] || items[0].Arg? then 0 else 1 + Lead(items[1..])
  }

  lemma NoLead(items: seq<Item>, rest: seq<Token>)
    requires Ends(rest) && (items == [] || items[0].Arg?)
    ensures !Starts(ItemTokens(items) + rest, "<>+")
  {
  }

  /** The items first are redirections, and are read before the items last. */
  ghost predicate ReadFirst(items: seq<Item>, first: seq<Item>, last: seq<Item>, rest: seq<Token>) {
    && Redirs(ItemTokens(items) + rest) == Ok(Heads(AimsOf(first)), ItemTokens(last) + rest)
    && AimsOf(items) == AimsOf(first) + AimsOf(last) && ArgsOf(items) == ArgsOf(last)
  }

  lemma ReadOneMore(i: Item, more: seq<Item>, first: seq<Item>, last: seq<Item>, rest: seq<Token>)
    requires i.Aim? && ReadFirst(more, first, last, rest)
    ensures ReadFirst([i] + more, [i] + first, last, rest)
  {
    hide Redirs, Written, Head, Heads, ItemTokens, ArgsOf, AimsOf;
    ItemsCons(i, more);
    ItemsCons(i, first);
    RedirsOne(i.r, ItemTokens(more) + rest, Heads(AimsOf(first)), ItemTokens(last) + rest);
    Assoc(Written(i.r), ItemTokens(more), rest);
    Assoc([i.r], AimsOf(first), AimsOf(last));
    HeadsConcat([i.r], AimsOf(first));
    HeadsOne(i.r);
  }

  lemma ReadNone(items: seq<Item>, rest: seq<Token>)
    requires Ends(rest) && (items == [] || items[0].Arg?)
    ensures ReadFirst(items, [], items, rest)
  {
    hide Redirs, Heads, ItemTokens, ArgsOf, AimsOf, Ends, Starts;
    NoLead(items, rest);
    RedirsNone(ItemTokens(items) + rest);
    NoItems();
    HeadsOne(Redirection(In, ""));
  }

  /** The redirections that come first are read first. */
  lemma {:induction false} RedirsOfItems(items: seq<Item>, rest: seq<Token>)
    requires Ends(rest)
    ensures var k := Lead(items);
            ReadFirst(items, items[..k], items[k..], rest) && (k < |items| ==> items[k].Arg?)
  {
    hide ReadFirst, Ends;
    var k := Lead(items);
    if items == [] || items[0].Arg? {
      ReadNone(items, rest);
      assert items[..k] == [] && items[k..] == items;
    } else {
      var i, more := items[0], items[1..];
      RedirsOfItems(more, rest);
      var first, last := more[..k - 1], more[k - 1..];
      ReadOneMore(i, more, first, last, rest);
      assert items == [i] + more && items[..k] == [i] + first && items[k..] == last;
    }
  }

  lemma ArgsOne(w: string, ts: seq<Token>, argc: nat, rs: seq<Redirect<string>>, ts1: seq<Token>,
                ws: seq<string>, rs1: seq<Redirect<string>>, rest: seq<Token>)
    requires Redirs(ts) == Ok(rs, ts1) && Args(ts1, argc + 1) == Ok((ws, rs1), rest) && argc + 1 < MAXARGS
    ensures Args([Word(w)] + ts, argc) == Ok(([w] + ws, rs + rs1), rest)
  {
    assert ([Word(w)] + ts)[1..] == ts;
  }

  lemma ArgsNone(rest: seq<Token>, argc: nat)
    requires Ends(rest)
    ensures Args(rest, argc) == Ok(([], []), rest)
  {
  }

  /** A word, then the redirections after it, then the rest of the command. */
  lemma {:induction false} ArgsOfItems(items: seq<Item>, rest: seq<Token>, argc: nat)
    requires Ends(rest) && (items == [] || items[0].Arg?) && argc + |ArgsOf(items)| < MAXARGS
    ensures Args(ItemTokens(items) + rest, argc) == Ok((ArgsOf(items), Heads(AimsOf(items))), rest)
    decreases |items|
  {
    hide Args, Redirs, Head, Heads, ItemTokens, ArgsOf, AimsOf, Ends, Lead;
    if items == [] {
      NoItems();
      assert [] + rest == rest;
      ArgsNone(rest, argc);
      HeadsOne(Redirection(In, ""));
    } else {
      var i, more := items[0], items[1..];
      var k := Lead(more);
      assert items == [i] + more;
      ItemsCons(i, more);
      RedirsOfItems(more, rest);
      ArgsOfItems(more[k..], rest, argc + 1);
      var aims, aims1 := AimsOf(more[..k]), AimsOf(more[k..]);
      ArgsOne(i.w, ItemTokens(more) + rest, argc, Heads(aims), ItemTokens(more[k..]) + rest,
              ArgsOf(more[k..]), Heads(aims1), rest);
      Assoc([Word(i.w)], ItemTokens(more), rest);
      HeadsConcat(aims, aims1);
    }
  }

  lemma NoParen(items: seq<Item>, rest: seq<Token>)
    requires Ends(rest)
    ensures !Starts(ItemTokens(items) + rest, "(")
  {
  }

  lemma ExecPlain(items: seq<Item>, rest: seq<Token>)
    requires Ends(rest) && |ArgsOf(items)| < MAXARGS
    ensures ExecCmd(ItemTokens(items) + rest) == Ok(AimedAll(Exec(ArgsOf(items)), AimsOf(items)), rest)
  {
    hide Args, Redirs, Wrap, Head, Heads, Starts, Ends, AimedAll, ItemTokens, ArgsOf, AimsOf;
    var k := Lead(items);
    NoParen(items, rest);
    RedirsOfItems(items, rest);
    ArgsOfItems(items[k..], rest, 0);
    HeadsConcat(AimsOf(items[..k]), AimsOf(items[k..]));
    WrapHeads(Exec(ArgsOf(items)), AimsOf(items));
  }

  // ---- whole lines ----

  lemma GroupOf(ts: seq<Token>, cmd: Cmd<string>, after: seq<Token>, rs: seq<Redirection>, rest: seq<Token>)
    requires Line(ts) == Ok(cmd, [Sym(')')] + after) && Redirs(after) == Ok(Heads(rs), rest)
    ensures ExecCmd([Sym('(')] + ts) == Ok(AimedAll(cmd, rs), rest)
  {
    hide Line, Redirs, Wrap, AimedAll;
    assert ([Sym('(')] + ts)[1..] == ts && ([Sym(')')] + after)[1..] == after;
    WrapHeads(cmd, rs);
  }

  lemma {:induction false} SimpleParses(a: Simple, rest: seq<Token>)
    requires SimpleFits(a) && Ends(rest)
    ensures ExecCmd(SimpleTokens(a) + rest) == Ok(SimpleTree(a), rest)
    decreases a
  {
    hide ExecCmd, Line, AimedAll, Heads;
    match a
    case Plain(items) => ExecPlain(items, rest);
    case Paren(line, rs) =>
      var after := AimTokens(rs) + rest;
      TextParses(line, [Sym(')')] + after);
      RedirsOfAims(rs, rest);
      GroupOf(TextTokens(line) + ([Sym(')')] + after), TextTree(line), after, rs, rest);
      assert SimpleTokens(a) + rest == [Sym('(')] + (TextTokens(line) + ([Sym(')')] + after));
  }

  lemma PipeOne(ts: seq<Token>, c: Cmd<string>, rest: seq<Token>)
    requires ExecCmd(ts) == Ok(c, rest) && !Starts(rest, "|")
    ensures PipeCmd(ts) == Ok(c, rest)
  {
  }

  lemma PipeInto(ts: seq<Token>, c: Cmd<string>, more: seq<Token>, d: Cmd<string>, rest: seq<Token>)
    requires ExecCmd(ts) == Ok(c, [Sym('|')] + more) && PipeCmd(more) == Ok(d, rest)
    ensures PipeCmd(ts) == Ok(Pipe(c, d), rest)
  {
    assert ([Sym('|')] + more)[1..] == more;
  }

  lemma {:induction false} PipedParses(p: Piped, rest: seq<Token>)
    requires PipedFits(p) && Ends(rest) && !Starts(rest, "|")
    ensures PipeCmd(PipedTokens(p) + rest) == Ok(PipedTree(p), rest)
    decreases p
  {
    hide ExecCmd, PipeCmd;
    match p
    case One(a) =>
      SimpleParses(a, rest);
      PipeOne(SimpleTokens(a) + rest, SimpleTree(a), rest);
    case Into(a, more) =>
      var right := PipedTokens(more) + rest;
      SimpleParses(a, [Sym('|')] + right);
      PipedParses(more, rest);
      PipeInto(SimpleTokens(a) + ([Sym('|')] + right), SimpleTree(a), right, PipedTree(more), rest);
      assert PipedTokens(p) + rest == SimpleTokens(a) + ([Sym('|')] + right);
  }

  lemma {:induction false} BacksOfAmps(c: Cmd<string>, n: nat, rest: seq<Token>)
    requires !Starts(rest, "&")
    ensures Backs(c, Amps(n) + rest) == (Backed(c, n), rest)
    decreases n
  {
    if n == 0 {
      assert Amps(0) + rest == rest;
    } else {
      assert (Amps(n) + rest)[1..] == Amps(n - 1) + rest;
      BacksOfAmps(Back(c), n - 1, rest);
      BackedIn(c, n - 1);
    }
  }

  lemma {:induction false} BackedIn(c: Cmd<string>, n: nat)
    ensures Backed(Back(c), n) == Back(Backed(c, n))
  {
    if n > 0 { BackedIn(c, n - 1); }
  }

  lemma LineLast(ts: seq<Token>, c: Cmd<string>, amps: nat, rest: seq<Token>)
    requires PipeCmd(ts) == Ok(c, Amps(amps) + rest) && Stops(rest)
    ensures Line(ts) == Ok(Backed(c, amps), rest)
  {
    BacksOfAmps(c, amps, rest);
  }

  lemma LineThen(ts: seq<Token>, c: Cmd<string>, amps: nat, more: seq<Token>, d: Cmd<string>, rest: seq<Token>)
    requires PipeCmd(ts) == Ok(c, Amps(amps) + ([Sym(';')] + more)) && Line(more) == Ok(d, rest)
    ensures Line(ts) == Ok(List(Backed(c, amps), d), rest)
  {
    hide PipeCmd;
    BacksOfAmps(c, amps, [Sym(';')] + more);
    assert ([Sym(';')] + more)[1..] == more;
  }

  lemma AfterPipe(amps: nat, rest: seq<Token>)
    requires Stops(rest) || Starts(rest, ";")
    ensures Ends(Amps(amps) + rest) && !Starts(Amps(amps) + rest, "|")
  {
  }

  lemma {:induction false} TextParses(l: Text, rest: seq<Token>)
    requires TextFits(l) && Stops(rest)
    ensures Line(TextTokens(l) + rest) == Ok(TextTree(l), rest)
    decreases l
  {
    hide PipeCmd, Line;
    match l
    case Last(p, amps) =>
      AfterPipe(amps, rest);
      PipedParses(p, Amps(amps) + rest);
      LineLast(PipedTokens(p) + (Amps(amps) + rest), PipedTree(p), amps, rest);
      assert TextTokens(l) + rest == PipedTokens(p) + (Amps(amps) + rest);
    case Then(p, amps, more) =>
      var right := TextTokens(more) + rest;
      AfterPipe(amps, [Sym(';')] + right);
      PipedParses(p, Amps(amps) + ([Sym(';')] + right));
      TextParses(more, rest);
      LineThen(PipedTokens(p) + (Amps(amps) + ([Sym(';')] + right)), PipedTree(p), amps, right, TextTree(more), rest);
      assert TextTokens(l) + rest == PipedTokens(p) + (Amps(amps) + ([Sym(';')] + right));
  }

  // ---- nothing else parses ----

  lemma AimOf(c: char, file: string) returns (r: Redirection)
    requires c in "<>+"
    ensures Written(r) == [Sym(c), Word(file)] && Head(r) == Redirect(c, file)
  {
    r := Redirection(if c == '<' then In else if c == '>' then Out else Append, file);
  }

  lemma {:induction false} AimsRead(ts: seq<Token>, heads: seq<Redirect<string>>, rest: seq<Token>)
    returns (rs: seq<Redirection>)
    requires Redirs(ts) == Ok(heads, rest)
    ensures ts == AimTokens(rs) + rest && heads == Heads(rs)
    decreases |ts|
  {
    hide Heads, Head, AimTokens, Written;
    if !Starts(ts, "<>+") {
      rs := [];
      assert AimTokens([]) == [] by { NoAims(); }
      HeadsOne(Redirection(In, ""));
      assert [] + rest == rest;
    } else {
      var r := AimOf(ts[0].c, ts[1].w);
      var more := AimsRead(ts[2..], Redirs(ts[2..]).value, rest);
      rs := [r] + more;
      AimsCons(r, more);
      assert ts == [ts[0], ts[1]] + ts[2..];
      Assoc(Written(r), AimTokens(more), rest);
    }
  }

  lemma NoAims()
    ensures AimTokens([]) == []
  {
  }

  function Aims(rs: seq<Redirection>): seq<Item> { seq(|rs|, i requires 0 <= i < |rs| => Aim(rs[i])) }

  lemma {:induction false} AimsThen(rs: seq<Redirection>, items: seq<Item>)
    ensures ItemTokens(Aims(rs) + items) == AimTokens(rs) + ItemTokens(items)
    ensures ArgsOf(Aims(rs) + items) == ArgsOf(items) && AimsOf(Aims(rs) + items) == rs + AimsOf(items)
  {
    hide Written, ItemTokens, ArgsOf, AimsOf, AimTokens;
    if rs == [] {
      assert Aims(rs) + items == items;
      NoAims();
      assert [] + ItemTokens(items) == ItemTokens(items);
    } else {
      var r, more := rs[0], rs[1..];
      AimsThen(more, items);
      assert rs == [r] + more && Aims(rs) + items == [Aim(r)] + (Aims(more) + items);
      ItemsCons(Aim(r), Aims(more) + items);
      AimsCons(r, more);
      Assoc(Written(r), AimTokens(more), ItemTokens(items));
      assert rs + AimsOf(items) == [r] + (more + AimsOf(items));
    }
  }

  lemma {:induction false} ItemsRead(ts: seq<Token>, argc: nat, v: (seq<string>, seq<Redirect<string>>),
                                     rest: seq<Token>)
    returns (items: seq<Item>)
    requires Args(ts, argc) == Ok(v, rest) && argc < MAXARGS
    ensures ts == ItemTokens(items) + rest && ArgsOf(items) == v.0 && Heads(AimsOf(items)) == v.1
    ensures argc + |v.0| < MAXARGS && Ends(rest)
    decreases |ts|
  {
    hide Redirs, Head, Heads, Written, ItemTokens, ArgsOf, AimsOf, AimTokens, Aims;
    if Ends(ts) {
      items := [];
      ArgsNone(ts, argc);
      NoItems();
      HeadsOne(Redirection(In, ""));
      assert [] + rest == rest;
    } else {
      var p := Redirs(ts[1..]);
      var rs := AimsRead(ts[1..], p.value, p.rest);
      var q := Args(p.rest, argc + 1);
      var more := ItemsRead(p.rest, argc + 1, q.value, q.rest);
      AimsThen(rs, more);
      items := [Arg(ts[0].w)] + (Aims(rs) + more);
      ItemsCons(Arg(ts[0].w), Aims(rs) + more);
      assert ts == [ts[0]] + ts[1..];
      Assoc(AimTokens(rs), ItemTokens(more), rest);
      Assoc([ts[0]], AimTokens(rs) + ItemTokens(more), rest);
      HeadsConcat(rs, AimsOf(more));
    }
  }

  lemma PlainRead(ts: seq<Token>, c: Cmd<string>, rest: seq<Token>) returns (a: Simple)
    requires ExecCmd(ts) == Ok(c, rest) && !Starts(ts, "(")
    ensures ts == SimpleTokens(a) + rest && SimpleTree(a) == c && SimpleFits(a) && Ends(rest)
  {
    hide Args, Redirs, Wrap, Head, Heads, AimedAll, Written, ItemTokens, ArgsOf, AimsOf, AimTokens, Aims;
    var p := Redirs(ts);
    var rs := AimsRead(ts, p.value, p.rest);
    var q := Args(p.rest, 0);
    var items := ItemsRead(p.rest, 0, q.value, q.rest);
    AimsThen(rs, items);
    a := Plain(Aims(rs) + items);
    HeadsConcat(rs, AimsOf(items));
    WrapHeads(Exec(ArgsOf(items)), rs + AimsOf(items));
    Assoc(AimTokens(rs), ItemTokens(items), rest);
  }

  lemma GroupRead(ts: seq<Token>, c: Cmd<string>, rest: seq<Token>)
    requires ExecCmd(ts) == Ok(c, rest) && Starts(ts, "(")
    ensures var p := Line(ts[1..]);
            && p.Ok? && Starts(p.rest, ")") && Redirs(p.rest[1..]).Ok? && Redirs(p.rest[1..]).rest == rest
            && c == Wrap(p.value, Redirs(p.rest[1..]).value)
  {
    hide Line, Redirs, Wrap;
  }

  lemma {:induction false} SimpleRead(ts: seq<Token>, c: Cmd<string>, rest: seq<Token>) returns (a: Simple)
    requires ExecCmd(ts) == Ok(c, rest)
    ensures ts == SimpleTokens(a) + rest && SimpleTree(a) == c && SimpleFits(a)
    decreases |ts|, 0
  {
    hide ExecCmd, Line, Redirs, Wrap, AimedAll, Heads;
    if !Starts(ts, "(") {
      a := PlainRead(ts, c, rest);
    } else {
      GroupRead(ts, c, rest);
      var p := Line(ts[1..]);
      var l := TextRead(ts[1..], p.value, p.rest);
      var rs := AimsRead(p.rest[1..], Redirs(p.rest[1..]).value, rest);
      a := Paren(l, rs);
      WrapHeads(p.value, rs);
      assert ts == [Sym('(')] + ts[1..] && p.rest == [Sym(')')] + p.rest[1..];
      assert SimpleTokens(a) + rest == [Sym('(')] + (TextTokens(l) + ([Sym(')')] + (AimTokens(rs) + rest)));
    }
  }

  lemma {:induction false} PipedRead(ts: seq<Token>, c: Cmd<string>, rest: seq<Token>) returns (p: Piped)
    requires PipeCmd(ts) == Ok(c, rest)
    ensures ts == PipedTokens(p) + rest && PipedTree(p) == c && PipedFits(p)
    decreases |ts|, 1
  {
    hide ExecCmd;
    var e := ExecCmd(ts);
    var a := SimpleRead(ts, e.value, e.rest);
    if !Starts(e.rest, "|") {
      p := One(a);
    } else {
      var q := PipeCmd(e.rest[1..]);
      var more := PipedRead(e.rest[1..], q.value, q.rest);
      p := Into(a, more);
      assert e.rest == [Sym('|')] + e.rest[1..];
      Assoc([Sym('|')], PipedTokens(more), rest);
      Assoc(SimpleTokens(a), [Sym('|')] + PipedTokens(more), rest);
    }
  }

  lemma {:induction false} AmpsRead(c: Cmd<string>, ts: seq<Token>) returns (n: nat)
    ensures ts == Amps(n) + Backs(c, ts).1 && Backs(c, ts).0 == Backed(c, n)
    decreases |ts|
  {
    if Starts(ts, "&") {
      var m := AmpsRead(Back(c), ts[1..]);
      n := m + 1;
      BackedIn(c, m);
      assert ts == [Sym('&')] + ts[1..] && Amps(n) == [Sym('&')] + Amps(m);
    } else {
      n := 0;
      assert Amps(0) + ts == ts;
    }
  }

  lemma {:induction false} TextRead(ts: seq<Token>, c: Cmd<string>, rest: seq<Token>) returns (l: Text)
    requires Line(ts) == Ok(c, rest)
    ensures ts == TextTokens(l) + rest && TextTree(l) == c && TextFits(l)
    decreases |ts|, 2
  {
    hide PipeCmd, Line, Amps, Backs, Backed;
    LineRead(ts, c, rest);
    var q := PipeCmd(ts);
    var p := PipedRead(ts, q.value, q.rest);
    var n := AmpsRead(q.value, q.rest);
    var ts2 := Backs(q.value, q.rest).1;
    if !Starts(ts2, ";") {
      l := Last(p, n);
      Assoc(PipedTokens(p), Amps(n), rest);
    } else {
      var r := Line(ts2[1..]);
      var more := TextRead(ts2[1..], r.value, r.rest);
      l := Then(p, n, more);
      assert ts2 == [Sym(';')] + ts2[1..];
      ThenTokens(PipedTokens(p), Amps(n), TextTokens(more), rest);
    }
  }

  lemma ThenTokens(p: seq<Token>, amps: seq<Token>, more: seq<Token>, rest: seq<Token>)
    ensures p + (amps + ([Sym(';')] + (more + rest))) == p + (amps + ([Sym(';')] + more)) + rest
  {
    Assoc([Sym(';')], more, rest);
    Assoc(amps, [Sym(';')] + more, rest);
    Assoc(p, amps + ([Sym(';')] + more), rest);
  }

  lemma LineRead(ts: seq<Token>, c: Cmd<string>, rest: seq<Token>)
    requires Line(ts) == Ok(c, rest)
    ensures var q := PipeCmd(ts);
            && q.Ok? && |Backs(q.value, q.rest).1| <= |q.rest|
            && var (d, ts2) := Backs(q.value, q.rest);
               if !Starts(ts2, ";") then c == d && rest == ts2
               else Line(ts2[1..]).Ok? && c == List(d, Line(ts2[1..]).value) && rest == Line(ts2[1..]).rest
  {
    hide PipeCmd, Backs;
  }

  /** The shell's language.  parsecmd accepts a line exactly if it can be written like this, and
      then its tree is what the line means: redirections nest in textual order, | binds tighter
      than & and ;, and | and ; nest to the right.  Everything else is a syntax panic. */
  lemma CommandExact(ts: seq<Token>, t: Cmd<string>)
    ensures Command(ts) == Ok(t, []) <==> exists l :: TextFits(l) && TextTokens(l) == ts && TextTree(l) == t
  {
    hide Line, TextTokens, TextTree, TextFits;
    if Command(ts) == Ok(t, []) {
      var l := TextRead(ts, t, []);
      assert TextTokens(l) + [] == TextTokens(l);
    }
    forall l | TextFits(l) && TextTokens(l) == ts && TextTree(l) == t ensures Command(ts) == Ok(t, []) {
      TextParses(l, []);
      assert TextTokens(l) + [] == TextTokens(l);
    }
  }
}
