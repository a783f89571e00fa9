/** The regular-expression matcher of grep, against the language its patterns denote.
    C strings are sequences without their terminator. */
module Grep {

  datatype Regex = Empty | Any | Lit(c: char) | Cat(left: Regex, right: Regex) | Star(body: Regex)

  /** s is in the language of r. */
  ghost predicate InLang(r: Regex, s: string)
    decreases r, |s|
  {
    match r
    case Empty => s == ""
    case Any => |s| == 1
    case Lit(c) => s == [c]
    case Cat(a, b) => exists k :: 0 <= k <= |s| && InLang(a, s[..k]) && InLang(b, s[k..])
    case Star(a) => s == "" || exists k :: 0 < k <= |s| && InLang(a, s[..k]) && InLang(r, s[k..])
  }

  // ---- what a pattern denotes ----

  function Atom(c: char): Regex { if c == '.' then Any else Lit(c) }

  predicate StarAt(re: string) { |re| >= 2 && re[1] == '*' }

  /** The pattern after any `^` and without a final `$`, as a regular expression. */
  function Compile(core: string): Regex {
    if core == "" then Empty
    else if StarAt(core) then Cat(Star(Atom(core[0])), Compile(core[2..]))
    else Cat(Atom(core[0]), Compile(core[1..]))
  }

  /** A final `$` ties the match to the end of the text. */
  predicate EndTied(re: string) { re != "" && re[|re| - 1] == '$' }

  function Core(re: string): string { if EndTied(re) then re[..|re| - 1] else re }

  /** Some prefix of text, the whole text if re ends in `$`, is in the language. */
  ghost predicate Here(re: string, text: string) {
    exists k :: 0 <= k <= |text| && (EndTied(re) ==> k == |text|) && InLang(Compile(Core(re)), text[..k])
  }

  predicate StartTied(re: string) { re != "" && re[0] == '^' }

  function Body(re: string): string { if StartTied(re) then re[1..] else re }

  /** Some substring of text matches: a prefix after `^`, reaching the end before `$`. */
  ghost predicate Matches(re: string, text: string) {
    exists i, j :: 0 <= i <= j <= |text| && (StartTied(re) ==> i == 0) && (EndTied(Body(re)) ==> j == |text|)
      && InLang(Compile(Core(Body(re))), text[i..j])
  }

  // ---- one step of the pattern at a time ----

  predicate Fits(c: char, t: char) { c == '.' || c == t }

  lemma AtomLang(c: char, s: string)
    ensures InLang(Atom(c), s) <==> |s| == 1 && Fits(c, s[0])
  {
  }

  lemma HereEmpty(text: string)
    ensures Here("", text)
  {
    assert InLang(Compile(Core("")), text[..0]);
  }

  lemma HereEnd(text: string)
    ensures Here("$", text) <==> text == ""
  {
    assert Core("$") == "";
    if text == "" { assert InLang(Compile(Core("$")), text[..0]); }
  }

  /** The core of a pattern that does not consist of a `$` alone, past its first n characters. */
  lemma CoreRest(re: string, n: nat)
    requires n <= |re| && (n == 2 ==> StarAt(re)) && (n == 1 ==> !StarAt(re) && re != "$") && 1 <= n <= 2
    ensures EndTied(re[n..]) == EndTied(re) && |Core(re)| >= n && Core(re)[n..] == Core(re[n..])
    ensures Core(re)[0] == re[0] && StarAt(Core(re)) == (n == 2)
  {
  }

  lemma HereOne(re: string, text: string)
    requires re != "" && !StarAt(re) && re != "$"
    ensures Here(re, text) <==> text != "" && Fits(re[0], text[0]) && Here(re[1..], text[1..])
  {
    CoreRest(re, 1);
    var a, b := Atom(re[0]), Compile(Core(re[1..]));
    assert Compile(Core(re)) == Cat(a, b);
    if Here(re, text) {
      var k :| 0 <= k <= |text| && (EndTied(re) ==> k == |text|) && InLang(Cat(a, b), text[..k]);
      var j :| 0 <= j <= k && InLang(a, text[..k][..j]) && InLang(b, text[..k][j..]);
      AtomLang(re[0], text[..k][..j]);
      assert text[..k][1..] == text[1..][..k - 1];
    }
    if text != "" && Fits(re[0], text[0]) && Here(re[1..], text[1..]) {
      var k :| 0 <= k <= |text[1..]| && (EndTied(re) ==> k == |text[1..]|) && InLang(b, text[1..][..k]);
      var s := text[..k + 1];
      AtomLang(re[0], s[..1]);
      assert s[1..] == text[1..][..k];
      assert InLang(Cat(a, b), s);
    }
  }

  /** c* followed by rest. */
  ghost predicate HereStar(c: char, rest: string, text: string) {
    exists k :: 0 <= k <= |text| && (EndTied(rest) ==> k == |text|)
      && InLang(Cat(Star(Atom(c)), Compile(Core(rest))), text[..k])
  }

  lemma HereIsStar(re: string, text: string)
    requires StarAt(re)
    ensures Here(re, text) <==> HereStar(re[0], re[2..], text)
  {
    CoreRest(re, 2);
  }

  lemma StarUnfoldAt(c: char, b: Regex, s: string)
    requires InLang(Cat(Star(Atom(c)), b), s)
    ensures InLang(b, s) || (s != "" && Fits(c, s[0]) && InLang(Cat(Star(Atom(c)), b), s[1..]))
  {
    hide InLang, Atom;
    var j := CatPieces(Star(Atom(c)), b, s);
    if j == 0 {
      assert s[0..] == s;
    } else {
      StarSplit(c, s[..j]);
      Slices(s, j);
      CatSplit(Star(Atom(c)), b, s[1..], j - 1);
    }
  }

  lemma StarUnfold(c: char, rest: string, text: string)
    requires HereStar(c, rest, text)
    ensures Here(rest, text) || (text != "" && Fits(c, text[0]) && HereStar(c, rest, text[1..]))
  {
    hide InLang, Compile, Core, EndTied, Atom;
    var st, b := Star(Atom(c)), Compile(Core(rest));
    var k :| 0 <= k <= |text| && (EndTied(rest) ==> k == |text|) && InLang(Cat(st, b), text[..k]);
    StarUnfoldAt(c, b, text[..k]);
    if k > 0 { assert text[..k][1..] == text[1..][..k - 1]; }
  }

  lemma Slices(s: string, j: nat)
    requires 0 < j <= |s|
    ensures s[..j][1..] == s[1..][..j - 1] && s[j..] == s[1..][j - 1..]
  {
  }

  lemma StarSplit(c: char, s: string)
    requires InLang(Star(Atom(c)), s) && s != ""
    ensures Fits(c, s[0]) && InLang(Star(Atom(c)), s[1..])
  {
    var m :| 0 < m <= |s| && InLang(Atom(c), s[..m]) && InLang(Star(Atom(c)), s[m..]);
    AtomLang(c, s[..m]);
  }

  lemma CatSplit(a: Regex, b: Regex, s: string, j: nat)
    requires j <= |s| && InLang(a, s[..j]) && InLang(b, s[j..])
    ensures InLang(Cat(a, b), s)
  {
  }

  lemma CatPieces(a: Regex, b: Regex, s: string) returns (j: nat)
    requires InLang(Cat(a, b), s)
    ensures j <= |s| && InLang(a, s[..j]) && InLang(b, s[j..])
  {
    j :| 0 <= j <= |s| && InLang(a, s[..j]) && InLang(b, s[j..]);
  }

  lemma StarNone(c: char, rest: string, text: string)
    requires Here(rest, text)
    ensures HereStar(c, rest, text)
  {
    var st, b := Star(Atom(c)), Compile(Core(rest));
    var k :| 0 <= k <= |text| && (EndTied(rest) ==> k == |text|) && InLang(b, text[..k]);
    var s := text[..k];
    assert s[0..] == s && s[..0] == "";
    assert InLang(st, s[..0]) && InLang(b, s[0..]);
    assert InLang(Cat(st, b), s);
  }

  lemma StarMoreAt(c: char, b: Regex, x: char, t: string)
    requires Fits(c, x) && InLang(Cat(Star(Atom(c)), b), t)
    ensures InLang(Cat(Star(Atom(c)), b), [x] + t)
  {
    hide InLang, Atom;
    var j := CatPieces(Star(Atom(c)), b, t);
    StarLonger(c, x, t[..j]);
    var s := [x] + t;
    assert s[..j + 1] == [x] + t[..j] && s[j + 1..] == t[j..];
    CatSplit(Star(Atom(c)), b, s, j + 1);
  }

  lemma StarMore(c: char, rest: string, text: string)
    requires text != "" && Fits(c, text[0]) && HereStar(c, rest, text[1..])
    ensures HereStar(c, rest, text)
  {
    hide InLang, Compile, Core, EndTied, Atom;
    var st, b := Star(Atom(c)), Compile(Core(rest));
    var k :| 0 <= k <= |text[1..]| && (EndTied(rest) ==> k == |text[1..]|) && InLang(Cat(st, b), text[1..][..k]);
    StarMoreAt(c, b, text[0], text[1..][..k]);
    assert [text[0]] + text[1..][..k] == text[..k + 1];
  }

  lemma StarLonger(c: char, x: char, s: string)
    requires Fits(c, x) && InLang(Star(Atom(c)), s)
    ensures InLang(Star(Atom(c)), [x] + s)
  {
    var u := [x] + s;
    AtomLang(c, u[..1]);
    assert u[1..] == s;
    assert InLang(Atom(c), u[..1]) && InLang(Star(Atom(c)), u[1..]);
  }

  /** Zero repetitions, or one more of c. */
  lemma StarStep(c: char, rest: string, text: string)
    ensures HereStar(c, rest, text) <==>
            Here(rest, text) || (text != "" && Fits(c, text[0]) && HereStar(c, rest, text[1..]))
  {
    hide HereStar, Here;
    if HereStar(c, rest, text) { StarUnfold(c, rest, text); }
    if Here(rest, text) { StarNone(c, rest, text); }
    if text != "" && Fits(c, text[0]) && HereStar(c, rest, text[1..]) { StarMore(c, rest, text); }
  }

  // ---- the matcher ----

  /** matchhere decides the language exactly, for every pattern and text. */
  method MatchHere(re: string, text: string) returns (r: bool)
    ensures r <==> Here(re, text)
    decreases |re|, |text|, 0
  {
    if re == "" {
      HereEmpty(text);
      return true;
    }
    if |re| >= 2 && re[1] == '*' {
      HereIsStar(re, text);
      r := MatchStar(re[0], re[2..], text);
      return;
    }
    if re[0] == '$' && |re| == 1 {
      assert re == "$";
      HereEnd(text);
      return text == "";
    }
    HereOne(re, text);
    if text != "" && (re[0] == '.' || re[0] == text[0]) {
      r := MatchHere(re[1..], text[1..]);
      return;
    }
    return false;
  }

  method MatchStar(c: char, re: string, text: string) returns (r: bool)
    ensures r <==> HereStar(c, re, text)
    decreases |re|, |text|, 1
  {
    var i := 0;
    while true
      invariant 0 <= i <= |text|
      invariant HereStar(c, re, text) <==> HereStar(c, re, text[i..])
      decreases |text| - i
    {
      StarStep(c, re, text[i..]);
      r := MatchHere(re, text[i..]);
      if r { return; }
      if !(i < |text| && (text[i] == c || c == '.')) { return false; }
      assert text[i..][1..] == text[i + 1..];
      i := i + 1;
    }
  }

  lemma MatchesFrom(re: string, text: string)
    requires !StartTied(re)
    ensures Matches(re, text) <==> exists i :: 0 <= i <= |text| && Here(re, text[i..])
  {
    if Matches(re, text) {
      var i, j :| 0 <= i <= j <= |text| && (EndTied(re) ==> j == |text|) && InLang(Compile(Core(re)), text[i..j]);
      assert text[i..][..j - i] == text[i..j];
      assert Here(re, text[i..]);
    }
    if exists i :: 0 <= i <= |text| && Here(re, text[i..]) {
      var i :| 0 <= i <= |text| && Here(re, text[i..]);
      var k :| 0 <= k <= |text[i..]| && (EndTied(re) ==> k == |text[i..]|) && InLang(Compile(Core(re)), text[i..][..k]);
      assert text[i..][..k] == text[i..i + k];
    }
  }

  lemma MatchesStart(re: string, text: string)
    requires StartTied(re)
    ensures Matches(re, text) <==> Here(re[1..], text)
  {
    if Matches(re, text) {
      var j :| 0 <= j <= |text| && (EndTied(Body(re)) ==> j == |text|) && InLang(Compile(Core(Body(re))), text[0..j]);
      assert text[..j] == text[0..j];
    }
    if Here(re[1..], text) {
      var k :| 0 <= k <= |text| && (EndTied(re[1..]) ==> k == |text|) && InLang(Compile(Core(re[1..])), text[..k]);
      assert text[0..k] == text[..k];
    }
  }

  /** match is true exactly when some substring of the text is in the pattern's language. */
  method Match(re: string, text: string) returns (r: bool)
    ensures r <==> Matches(re, text)
  {
    if |re| > 0 && re[0] == '^' {
      MatchesStart(re, text);
      r := MatchHere(re[1..], text);
      return;
    }
    MatchesFrom(re, text);
    var i := 0;
    while true
      invariant 0 <= i <= |text|
      invariant forall j :: 0 <= j < i ==> !Here(re, text[j..])
      decreases |text| - i
    {
      r := MatchHere(re, text[i..]);
      if r { return; }
      if i == |text| { return false; }
      i := i + 1;
    }
  }
}
