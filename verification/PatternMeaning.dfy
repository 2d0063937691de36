/** Which patterns mean the same after compilation (src/proxy/mod.rs, `compile_path_pattern`). Literals are
    copied into the expression with only four of them escaped, so some are read as syntax; and then the
    compiled expression matches a path that the pattern does not mean, or matches nothing at all. */
module PatternMeaning {
  import opened Resources
  import opened Strings
  import opened RegularExpressions
  import opened PathPattern

  /** Signs that are copied unescaped although they are syntax. */
  predicate Syntax(c: char) {
    c == '+' || c == '?' || c == '|' || c == '^' || c == '$' || c == '(' || c == ')' || c == '['
  }

  /** Literals that are escaped although they need not be. */
  predicate NeedlesslyEscaped(t: Token) {
    t == Lit('/') || t == Lit('-') || t == Lit('_')
  }

  /** The token is read back as itself: no sign of syntax is, nor a backslash unless the next character is one that is
      escaped needlessly, nor a name that closes its own angle bracket. */
  predicate PlainAt(ts: seq<Token>, i: nat)
    requires i < |ts|
  {
    match ts[i]
    case Lit(c) => !Syntax(c) && (c == '\\' ==> i + 1 < |ts| && NeedlesslyEscaped(ts[i + 1]))
    case Param(name) => '>' !in name
    case _ => true
  }

  predicate Plain(ts: seq<Token>) {
    forall i :: 0 <= i < |ts| ==> PlainAt(ts, i)
  }

  lemma PlainCons(ts: seq<Token>)
    requires ts != []
    ensures Plain(ts) <==> PlainAt(ts, 0) && Plain(ts[1..])
  {
    forall i | 0 <= i < |ts| - 1 ensures PlainAt(ts[1..], i) <==> PlainAt(ts, i + 1) {
    }
    if PlainAt(ts, 0) && Plain(ts[1..]) {
      forall i | 0 <= i < |ts| ensures PlainAt(ts, i) {
        if i > 0 { assert PlainAt(ts[1..], i - 1); }
      }
    }
    if Plain(ts) {
      forall i | 0 <= i < |ts| - 1 ensures PlainAt(ts[1..], i) {
        assert PlainAt(ts, i + 1);
      }
    }
  }

  /** Tokens as patterns have them: stars, colons and opening braces are never literals. */
  predicate Readable(ts: seq<Token>) {
    forall t :: t in ts && t.Lit? ==> t.c != '*' && t.c != ':' && t.c != '{'
  }

  lemma ReadableRest(ts: seq<Token>)
    requires Readable(ts) && ts != []
    ensures Readable(ts[1..]) && (ts[0].Lit? ==> ts[0].c != '*' && ts[0].c != ':' && ts[0].c != '{')
  {
    assert ts[0] in ts && forall t :: t in ts[1..] ==> t in ts;
  }

  lemma {:induction false} TokensReadable(p: string)
    ensures Readable(TokensOf(p))
    decreases |p|
  {
    if p != "" {
      TokensReadable(p[NextToken(p).1..]);
    }
  }

  // ----- how many special characters a path must have -----

  function Weight(c: char): nat {
    if c == '\\' then 2
    else if c == '.' || c == '+' || c == '?' || c == '|' || c == '^' || c == '$' || c == '(' then 1
    else 0
  }

  function Specials(s: string): nat {
    if s == "" then 0 else Weight(s[0]) + Specials(s[1..])
  }

  function TokenWeight(t: Token): nat {
    if t.Lit? then Weight(t.c) else 0
  }

  /** Every path of the pattern has these. */
  function Demand(ts: seq<Token>): nat {
    if ts == [] then 0 else TokenWeight(ts[0]) + Demand(ts[1..])
  }

  lemma {:induction false} SpecialsAdd(a: string, b: string)
    ensures Specials(a + b) == Specials(a) + Specials(b)
    decreases |a|
  {
    if a == "" {
      assert a + b == b;
    } else {
      assert (a + b)[1..] == a[1..] + b;
      SpecialsAdd(a[1..], b);
    }
  }

  lemma {:induction false} GlobDemands(ts: seq<Token>, path: string)
    requires Glob(ts, path)
    ensures Specials(path) >= Demand(ts)
    decreases |ts|
  {
    if ts != [] {
      GlobByItem(ts, path);
      var k :| 0 <= k <= |path| && ItemMeans(ts[0], path[..k]) && Glob(ts[1..], path[k..]);
      GlobDemands(ts[1..], path[k..]);
      DemandsAdd(ts, path, k);
    }
  }

  lemma DemandsAdd(ts: seq<Token>, path: string, k: nat)
    requires ts != [] && k <= |path| && ItemMeans(ts[0], path[..k]) && Specials(path[k..]) >= Demand(ts[1..])
    ensures Specials(path) >= Demand(ts)
  {
    SpecialsAdd(path[..k], path[k..]);
    assert path == path[..k] + path[k..];
    if ts[0].Lit? {
      assert path[..k] == [ts[0].c] && path[..k][1..] == "";
    }
  }

  /** The pattern's own text, with parameters of one letter and nothing for the stars. */
  function Own(ts: seq<Token>): string {
    if ts == [] then ""
    else (match ts[0] case Lit(c) => [c] case Param(_) => "x" case _ => "") + Own(ts[1..])
  }

  lemma {:induction false} OwnMatches(ts: seq<Token>)
    ensures Glob(ts, Own(ts))
    decreases |ts|
  {
    if ts != [] {
      OwnMatches(ts[1..]);
      var own := match ts[0] case Lit(c) => [c] case Param(_) => "x" case _ => "";
      assert Own(ts)[..|own|] == own && Own(ts)[|own|..] == Own(ts[1..]);
      GlobByItem(ts, Own(ts));
    }
  }

  // ----- how few special characters a match needs -----

  function Cost(r: Regex): nat {
    match r
    case Chr(c) => Weight(c)
    case Plus(body) => Cost(body)
    case Group(_, body) => Cost(body)
    case Paren(body) => Cost(body)
    case Then(a, b) => Cost(a) + Cost(b)
    case Or(a, b) => if Cost(a) < Cost(b) then Cost(b) else Cost(a)
    case _ => 0
  }

  lemma {:induction false} Loosen(r: Regex, s: string, first: bool, last: bool, first': bool, last': bool)
    requires MatchesAt(r, s, first, last) && (first ==> first') && (last ==> last')
    ensures MatchesAt(r, s, first', last')
    decreases r, |s|, 0
  {
    match r
    case Opt(body) => if s != "" { Loosen(body, s, first, last, first', last'); }
    case Star(body) => LoosenRepeats(body, s, first, last, first', last');
    case Plus(body) =>
      var k :| 0 <= k <= |s| && MatchesAt(body, s[..k], first, last && k == |s|) && Repeats(body, s[k..], first && k == 0, last);
      Loosen(body, s[..k], first, last && k == |s|, first', last' && k == |s|);
      LoosenRepeats(body, s[k..], first && k == 0, last, first' && k == 0, last');
    case Group(_, body) => Loosen(body, s, first, last, first', last');
    case Paren(body) => Loosen(body, s, first, last, first', last');
    case Then(a, b) =>
      var k :| 0 <= k <= |s| && MatchesAt(a, s[..k], first, last && k == |s|) && MatchesAt(b, s[k..], first && k == 0, last);
      Loosen(a, s[..k], first, last && k == |s|, first', last' && k == |s|);
      Loosen(b, s[k..], first && k == 0, last, first' && k == 0, last');
    case Or(a, b) =>
      if MatchesAt(a, s, first, last) {
        Loosen(a, s, first, last, first', last');
      } else {
        Loosen(b, s, first, last, first', last');
      }
    case _ =>
  }

  lemma {:induction false} LoosenRepeats(body: Regex, s: string, first: bool, last: bool, first': bool, last': bool)
    requires Repeats(body, s, first, last) && (first ==> first') && (last ==> last')
    ensures Repeats(body, s, first', last')
    decreases body, |s|, 1
  {
    if s != "" {
      var k :| 1 <= k <= |s| && MatchesAt(body, s[..k], first, last && k == |s|) && Repeats(body, s[k..], false, last);
      Loosen(body, s[..k], first, last && k == |s|, first', last' && k == |s|);
      LoosenRepeats(body, s[k..], false, last, false, last');
    }
  }

  /** Whatever matches somewhere, something with at most the special characters of `Cost` matches there too: take
      every optional part away and every repeated one once. */
  lemma {:induction false} Shrink(r: Regex, s: string, first: bool, last: bool) returns (t: string)
    requires MatchesAt(r, s, first, last)
    ensures MatchesAt(r, t, first, last) && Specials(t) <= Cost(r) && (s == "" ==> t == "")
    decreases r
  {
    t := "";
    match r
    case Plus(body) =>
      var k :| 0 <= k <= |s| && MatchesAt(body, s[..k], first, last && k == |s|) && Repeats(body, s[k..], first && k == 0, last);
      Loosen(body, s[..k], first, last && k == |s|, first, last);
      t := Shrink(body, s[..k], first, last);
      OneRound(body, t, first, last);
    case Group(_, body) => t := Shrink(body, s, first, last);
    case Paren(body) => t := Shrink(body, s, first, last);
    case Then(a, b) =>
      var k :| 0 <= k <= |s| && MatchesAt(a, s[..k], first, last && k == |s|) && MatchesAt(b, s[k..], first && k == 0, last);
      t := ShrinkThen(a, b, s, first, last, k);
    case Or(a, b) =>
      if MatchesAt(a, s, first, last) {
        t := Shrink(a, s, first, last);
      } else {
        t := Shrink(b, s, first, last);
      }
    case Chr(_) => t := s;
    case Dot => t := "x";
    case NotSlash => t := "x";
    case _ =>
  }

  lemma OneRound(body: Regex, s: string, first: bool, last: bool)
    requires MatchesAt(body, s, first, last)
    ensures MatchesAt(Plus(body), s, first, last)
  {
    assert s[..|s|] == s && s[|s|..] == "";
  }

  lemma {:induction false} ShrinkThen(a: Regex, b: Regex, s: string, first: bool, last: bool, k: nat) returns (t: string)
    requires k <= |s| && MatchesAt(a, s[..k], first, last && k == |s|) && MatchesAt(b, s[k..], first && k == 0, last)
    ensures MatchesAt(Then(a, b), t, first, last) && Specials(t) <= Cost(a) + Cost(b) && (s == "" ==> t == "")
    decreases Then(a, b), 0
  {
    var x := Shrink(a, s[..k], first, last && k == |s|);
    var y := Shrink(b, s[k..], first && k == 0, last);
    t := x + y;
    Loosen(a, x, first, last && k == |s|, first, last && |x| == |t|);
    Loosen(b, y, first && k == 0, last, first && |x| == 0, last);
    assert t[..|x|] == x && t[|x|..] == y;
    SpecialsAdd(x, y);
  }

  /** A searched expression that matches any string matches one with at most its cost. */
  lemma ShrinkMatch(r: Regex, s: string) returns (t: string)
    requires IsMatch(r, s)
    ensures IsMatch(r, t) && Specials(t) <= Cost(r)
  {
    var i, j :| 0 <= i <= j <= |s| && MatchesAt(r, s[i..j], i == 0, j == |s|);
    Loosen(r, s[i..j], i == 0, j == |s|, true, true);
    t := Shrink(r, s[i..j], true, true);
    assert t[0..|t|] == t;
  }

  // ----- what a parse can make of a string -----

  /** `rem[i]` special characters are still to come from place `i` on: it never grows, and every escape gives up at
      least the escaped character. */
  predicate Fits(s: string, rem: seq<nat>) {
    && |rem| == |s| + 1
    && (s != "" ==>
          && rem[1] <= rem[0] && Fits(s[1..], rem[1..])
          && (s[0] == '\\' && |s| > 1 ==> rem[2] + Weight(s[1]) <= rem[0]))
  }

  lemma {:induction false} FitsFrom(s: string, rem: seq<nat>, k: nat)
    requires Fits(s, rem) && k <= |s|
    ensures Fits(s[k..], rem[k..]) && rem[k] <= rem[0]
    decreases k
  {
    if k == 0 {
      assert s[0..] == s && rem[0..] == rem;
    } else {
      FitsFrom(s[1..], rem[1..], k - 1);
      assert s[1..][k - 1..] == s[k..] && rem[1..][k - 1..] == rem[k..];
    }
  }

  lemma CostBefore(item: Regex, r: Regex)
    ensures Cost(Before(item, r)) <= Cost(item) + Cost(r)
  {
  }

  lemma {:induction false} QuantifiedBound(r: Regex, s: string, rem: seq<nat>) returns (left: seq<nat>)
    requires Fits(s, rem)
    ensures var out := Quantified(r, s);
            && Cost(out.0) <= Cost(r) && Fits(out.1, left) && left[0] <= rem[0]
            && (s != "" && Quantifier(s[0]) ==> left[0] <= rem[1])
    decreases |s|
  {
    if s == "" || !Quantifier(s[0]) {
      left := rem;
    } else if s[1..] != "" && s[1] == '?' {
      FitsFrom(s, rem, 1);
      FitsFrom(s, rem, 2);
      assert s[1..][1..] == s[2..];
      left := QuantifiedBound(Under(s[0], r), s[2..], rem[2..]);
    } else {
      left := QuantifiedBound(Under(s[0], r), s[1..], rem[1..]);
    }
  }

  /** One atom pays for itself; anchors, the dot and groups leave their sign over. */
  lemma {:induction false} AtomBound(s: string, rem: seq<nat>) returns (left: seq<nat>)
    requires Fits(s, rem) && ParseAtom(s).Some?
    ensures var out := ParseAtom(s).value;
            && Fits(out.1, left) && Cost(out.0) + left[0] <= rem[0]
            && (s[0] == '^' || s[0] == '$' || s[0] == '.' || s[0] == '(' ==> Cost(out.0) + left[0] <= rem[1])
    decreases |s|, 0
  {
    if s[0] == '\\' {
      FitsFrom(s, rem, 2);
      left := rem[2..];
    } else if s[0] == '[' {
      FitsFrom(s, rem, 4);
      left := rem[4..];
    } else if s[0] == '(' {
      if |s| > 1 && s[1] == '?' {
        left := NamedBound(s, rem);
      } else {
        left := ParseBound(s[1..], true, rem[1..]);
      }
    } else {
      left := rem[1..];
    }
  }

  lemma {:induction false} NamedBound(s: string, rem: seq<nat>) returns (left: seq<nat>)
    requires Fits(s, rem) && s != "" && ParseNamed(s).Some?
    ensures var out := ParseNamed(s).value; Fits(out.1, left) && Cost(out.0) + left[0] <= rem[1]
    decreases |s| - 1, 2
  {
    var h := Opening(s);
    var n := UpTo(s[h..], '>');
    var body := h + n + 1;
    assert s[h..][n + 1..] == s[body..];
    FitsFrom(s, rem, body);
    FitsFrom(s[1..], rem[1..], body - 1);
    left := ParseBound(s[body..], true, rem[body..]);
  }

  lemma {:induction false} ParseBound(s: string, inGroup: bool, rem: seq<nat>) returns (left: seq<nat>)
    requires Fits(s, rem) && Parse(s, inGroup).Some?
    ensures var out := Parse(s, inGroup).value; Fits(out.1, left) && Cost(out.0) + left[0] <= rem[0]
    decreases |s|, 1
  {
    if s == "" {
      left := rem;
    } else if s[0] == ')' {
      left := rem[1..];
    } else if s[0] == '|' {
      left := ParseBound(s[1..], inGroup, rem[1..]);
    } else {
      var atom := ParseAtom(s).value;
      var mid := AtomBound(s, rem);
      mid := QuantifiedBound(atom.0, atom.1, mid);
      var item := Quantified(atom.0, atom.1);
      left := ParseBound(item.1, inGroup, mid);
      CostBefore(item.0, Parse(item.1, inGroup).value.0);
    }
  }

  // ----- the emitted string -----

  /** The emitted string from a token on. */
  function Text(ts: seq<Token>): (s: string)
    ensures s != ""
  {
    EmitAll(ts) + "$"
  }

  lemma TextCons(ts: seq<Token>)
    requires ts != []
    ensures Text(ts) == EmitToken(ts[0]) + Text(ts[1..])
  {
    Associate(EmitToken(ts[0]), EmitAll(ts[1..]), "$");
  }

  /** The first character of the emitted string. */
  function Head(ts: seq<Token>): char {
    if ts == [] then '$'
    else
      match ts[0]
      case Lit(c) => if Escaped(c) then '\\' else c
      case Segment => '['
      case Deep => '.'
      case Param(_) => '('
  }

  lemma HeadOfText(ts: seq<Token>)
    ensures Text(ts)[0] == Head(ts)
  {
    if ts != [] {
      TextCons(ts);
    }
  }

  /** What the tokens demand, at every place of their text. */
  function Remaining(ts: seq<Token>): seq<nat> {
    if ts == [] then [0, 0] else seq(|EmitToken(ts[0])|, _ => Demand(ts)) + Remaining(ts[1..])
  }

  lemma {:induction false} SteadyFits(p: string, s: string, rem: seq<nat>, d: nat)
    requires '\\' !in p && Fits(s, rem) && rem[0] <= d
    ensures Fits(p + s, seq(|p|, _ => d) + rem)
    decreases |p|
  {
    var all := seq(|p|, _ => d) + rem;
    if p == "" {
      assert p + s == s && all == rem;
    } else {
      SteadyFits(p[1..], s, rem, d);
      assert (p + s)[1..] == p[1..] + s && all[1..] == seq(|p[1..]|, _ => d) + rem;
      assert p[0] in p;
    }
  }

  lemma {:induction false} TextFits(ts: seq<Token>)
    requires ValidNames(ParamNames(ts))
    ensures Fits(Text(ts), Remaining(ts)) && Remaining(ts)[0] == Demand(ts)
    decreases |ts|
  {
    if ts == [] {
      assert Text(ts) == "$" && Text(ts)[1..] == "" && Remaining(ts)[1..] == [0];
    } else {
      NamesSplit(ts);
      TextFits(ts[1..]);
      TextCons(ts);
      match ts[0]
      case Lit(c) => LiteralFits(c, Text(ts[1..]), Remaining(ts[1..]));
      case Param(name) =>
        NameHasNoBackslash(name);
        SteadyFits(EmitToken(ts[0]), Text(ts[1..]), Remaining(ts[1..]), Demand(ts));
      case _ => SteadyFits(EmitToken(ts[0]), Text(ts[1..]), Remaining(ts[1..]), Demand(ts));
    }
  }

  lemma NameHasNoBackslash(name: string)
    requires ValidName(name)
    ensures '\\' !in EmitToken(Param(name))
  {
  }

  lemma LiteralFits(c: char, s: string, rem: seq<nat>)
    requires s != "" && Fits(s, rem)
    ensures var p := EmitToken(Lit(c)); Fits(p + s, seq(|p|, _ => Weight(c) + rem[0]) + rem)
  {
    var p, d := EmitToken(Lit(c)), Weight(c) + rem[0];
    var all := seq(|p|, _ => d) + rem;
    if Escaped(c) {
      SteadyFits([c], s, rem, d);
      assert (p + s)[1..] == [c] + s && all[1..] == seq(1, _ => d) + rem;
    } else {
      assert (p + s)[1..] == s && all[1..] == rem;
    }
  }

  // ----- one token read back -----

  /** The next token is a quantifier. */
  predicate Quantifies(ts: seq<Token>) {
    ts != [] && (ts[0] == Lit('+') || ts[0] == Lit('?'))
  }

  lemma QuantifierHead(ts: seq<Token>)
    requires Readable(ts)
    ensures Quantifier(Head(ts)) <==> Quantifies(ts)
  {
    if ts != [] {
      ReadableRest(ts);
    }
  }

  /** The atom of a token that is read back as itself, and what is still to be read. */
  lemma TokenAtom(t: Token, s: string)
    requires t.Lit? ==> t.c != '\\' && !Syntax(t.c) && t.c != '*' && t.c != '{'
    requires t.Param? ==> ValidName(t.name) && '>' !in t.name
    ensures var atom := ParseAtom(EmitToken(t) + s);
            && atom.Some?
            && Quantified(atom.value.0, atom.value.1)
               == Quantified(ItemOf(t), if t.Segment? || t.Deep? then Unmarked(s) else s)
  {
    var text := EmitToken(t) + s;
    match t
    case Lit(c) =>
      if Escaped(c) {
        assert text[2..] == s;
      } else {
        assert text[1..] == s;
      }
    case Segment =>
      assert text[..4] == "[^/]" && text[4..] == "*" + s && ("*" + s)[1..] == s;
    case Deep =>
      assert text[1..] == "*" + s && ("*" + s)[1..] == s;
    case Param(name) => ParamAtom(name, s);
  }

  lemma ParamAtom(name: string, s: string)
    requires '>' !in name
    ensures ParseAtom(EmitToken(Param(name)) + s) == if ValidName(name) then Some((ItemOf(Param(name)), s)) else None
  {
    var text, tail := EmitToken(Param(name)) + s, "[^/]+)" + s;
    assert text[..4] == "(?P<" && text[4..] == name + ['>'] + tail;
    UpToAfter(name, tail, '>');
    assert text[4..][..|name|] == name && text[4..][|name| + 1..] == tail;
    SegmentBody(s);
  }

  lemma SegmentBody(s: string)
    ensures Parse("[^/]+)" + s, true) == Some((Then(Plus(NotSlash), Empty), s))
  {
    var text := "[^/]+)" + s;
    assert text[..4] == "[^/]" && text[4..] == "+)" + s;
    assert text[4..][1..] == ")" + s && (")" + s)[1..] == s;
    assert Quantified(NotSlash, text[4..]) == Quantified(Plus(NotSlash), ")" + s) == (Plus(NotSlash), ")" + s);
    assert Parse(")" + s, true) == Some((Empty, s));
  }

  /** The string begins with the atom `a`, and goes on with `t`. */
  predicate Begins(s: string, a: Regex, t: string) {
    && s != "" && s[0] != ')' && s[0] != '|' && ParseAtom(s).Some?
    && Quantified(ParseAtom(s).value.0, ParseAtom(s).value.1) == Quantified(a, t)
  }

  lemma ParseBegins(s: string, a: Regex, t: string)
    requires Begins(s, a, t)
    ensures var item := Quantified(a, t);
            var rest := Parse(item.1, false);
            Parse(s, false) == if rest.None? then None else Some((Before(item.0, rest.value.0), rest.value.1))
  {
  }

  lemma RawBegins(c: char, t: string)
    requires !Meta(c)
    ensures Begins([c] + t, Chr(c), t)
  {
    assert ([c] + t)[1..] == t;
  }

  lemma EscapeBegins(c: char, t: string)
    requires Escapable(c)
    ensures Begins(['\\', c] + t, Chr(c), t)
  {
    assert (['\\', c] + t)[2..] == t;
  }

  /** The next token is not a quantifier, so what stands before it is not quantified. */
  lemma Unquantified(ts: seq<Token>, item: Regex)
    requires Readable(ts) && !Quantifies(ts)
    ensures Quantified(item, Text(ts)) == (item, Text(ts)) && Unmarked(Text(ts)) == Text(ts)
  {
    HeadOfText(ts);
    QuantifierHead(ts);
  }

  /** A token that is read back as itself, unless a question mark makes its star lazy. */
  lemma TokenBegins(ts: seq<Token>)
    requires Readable(ts) && ts != [] && PlainAt(ts, 0) && ts[0] != Lit('\\') && (ts[0].Param? ==> ValidName(ts[0].name))
    requires ts[0].Segment? || ts[0].Deep? ==> |ts| == 1 || ts[1] != Lit('?')
    ensures Begins(Text(ts), ItemOf(ts[0]), Text(ts[1..]))
  {
    ReadableRest(ts);
    TextCons(ts);
    HeadOfText(ts);
    HeadOfText(ts[1..]);
    TokenAtom(ts[0], Text(ts[1..]));
  }

  /** A backslash before an escaped character takes the backslash of that escape, and leaves the character. */
  lemma BackslashBegins(ts: seq<Token>)
    requires |ts| > 1 && ts[0] == Lit('\\') && ts[1].Lit? && Escaped(ts[1].c)
    ensures Begins(Text(ts), Chr('\\'), [ts[1].c] + Text(ts[2..]))
  {
    var c, v := ts[1].c, ts[2..];
    BackslashText(ts);
    EscapeBegins('\\', [c] + Text(v));
  }

  lemma BackslashText(ts: seq<Token>)
    requires |ts| > 1 && ts[0] == Lit('\\') && ts[1].Lit? && Escaped(ts[1].c)
    ensures Text(ts) == ['\\', '\\'] + ([ts[1].c] + Text(ts[2..]))
  {
    TextCons(ts);
    TextCons(ts[1..]);
    assert ts[1..][1..] == ts[2..];
  }

  // ----- plain patterns -----

  /** The string reads as `r`, to its end, or not at all. */
  predicate Reads(s: string, r: Option<Regex>) {
    Parse(s, false) == if r.None? then None else Some((r.value, ""))
  }

  /** What the text of plain tokens should read as. */
  function Expected(ts: seq<Token>): Option<Regex> {
    if ValidNames(ParamNames(ts)) then Some(RegexOf(ts)) else None
  }

  lemma ReadsOn(s: string, item: Regex, t: string, r: Option<Regex>)
    requires Begins(s, item, t) && Quantified(item, t) == (item, t) && Reads(t, r) && (r.Some? ==> !r.value.Or?)
    ensures Reads(s, if r.None? then None else Some(Then(item, r.value)))
  {
    ParseBegins(s, item, t);
  }

  lemma {:induction false} PlainReads(ts: seq<Token>)
    requires Readable(ts) && Plain(ts)
    ensures Reads(Text(ts), Expected(ts))
    decreases |ts|
  {
    if ts == [] {
      EndReads();
    } else {
      PlainCons(ts);
      ReadableRest(ts);
      if ts[0] == Lit('\\') {
        PlainCons(ts[1..]);
        ReadableRest(ts[1..]);
        assert ts[1..][1..] == ts[2..];
        PlainReads(ts[2..]);
        BackslashReads(ts);
      } else {
        PlainReads(ts[1..]);
        TokenReads(ts);
      }
    }
  }

  lemma EndReads()
    ensures Reads(Text([]), Expected([]))
  {
    assert Text([]) == "$" && Text([])[1..] == "";
    assert Reads("", Some(Empty));
  }

  lemma PlainUnquantified(ts: seq<Token>)
    requires Plain(ts)
    ensures !Quantifies(ts)
  {
    if ts != [] {
      assert PlainAt(ts, 0);
    }
  }

  lemma TokenReads(ts: seq<Token>)
    requires Readable(ts) && ts != [] && PlainAt(ts, 0) && ts[0] != Lit('\\')
    requires Plain(ts[1..]) && Reads(Text(ts[1..]), Expected(ts[1..]))
    ensures Reads(Text(ts), Expected(ts))
  {
    ReadableRest(ts);
    NamesSplit(ts);
    PlainUnquantified(ts[1..]);
    if ts[0].Param? && !ValidName(ts[0].name) {
      NameUnread(ts);
    } else {
      TokenBegins(ts);
      Unquantified(ts[1..], ItemOf(ts[0]));
      ReadsOn(Text(ts), ItemOf(ts[0]), Text(ts[1..]), Expected(ts[1..]));
    }
  }

  lemma NameUnread(ts: seq<Token>)
    requires ts != [] && ts[0].Param? && '>' !in ts[0].name && !ValidName(ts[0].name)
    ensures Reads(Text(ts), None)
  {
    TextCons(ts);
    ParamAtom(ts[0].name, Text(ts[1..]));
    assert Text(ts)[0] == '(';
  }

  lemma BackslashReads(ts: seq<Token>)
    requires |ts| > 1 && ts[0] == Lit('\\') && NeedlesslyEscaped(ts[1])
    requires Readable(ts[2..]) && Plain(ts[2..]) && Reads(Text(ts[2..]), Expected(ts[2..]))
    ensures Reads(Text(ts), Expected(ts))
  {
    var c, v := ts[1].c, ts[2..];
    var rest, r := [c] + Text(v), Expected(v);
    BackslashBegins(ts);
    RawBegins(c, Text(v));
    PlainUnquantified(v);
    Unquantified(v, Chr(c));
    ReadsOn(rest, Chr(c), Text(v), r);
    ReadsOn(Text(ts), Chr('\\'), rest, if r.None? then None else Some(Then(Chr(c), r.value)));
    BackslashExpected(ts);
  }

  lemma BackslashExpected(ts: seq<Token>)
    requires |ts| > 1 && ts[0] == Lit('\\') && ts[1].Lit?
    ensures var r := Expected(ts[2..]);
            Expected(ts) == if r.None? then None else Some(Then(Chr('\\'), Then(Chr(ts[1].c), r.value)))
  {
    assert ts[1..][1..] == ts[2..];
    assert ParamNames(ts) == ParamNames(ts[1..]) == ParamNames(ts[2..]);
    assert RegexOf(ts) == Then(Chr('\\'), RegexOf(ts[1..])) && RegexOf(ts[1..]) == Then(Chr(ts[1].c), RegexOf(ts[2..]));
  }

  // ----- all other patterns -----

  /** If the string can be read, that needs at most `d` special characters. */
  predicate AtMost(s: string, d: int) {
    Parse(s, false).Some? ==> Cost(Parse(s, false).value.0) <= d
  }

  /** The same for a string behind an atom. */
  predicate AtMostAfter(a: Regex, s: string, d: int) {
    var item := Quantified(a, s);
    Parse(item.1, false).Some? ==> Cost(item.0) + Cost(Parse(item.1, false).value.0) <= d
  }

  lemma BeginsAtMost(s: string, a: Regex, t: string, d: int)
    requires Begins(s, a, t) && AtMostAfter(a, t, d)
    ensures AtMost(s, d)
  {
    ParseBegins(s, a, t);
    var item := Quantified(a, t);
    if Parse(item.1, false).Some? {
      CostBefore(item.0, Parse(item.1, false).value.0);
    }
  }

  lemma UnquantifiedAtMost(a: Regex, s: string, d: int)
    requires Quantified(a, s) == (a, s) && AtMost(s, d)
    ensures AtMostAfter(a, s, Cost(a) + d)
  {
  }

  /** What remains is enough. */
  lemma RemainsAfter(a: Regex, s: string, rem: seq<nat>)
    requires Fits(s, rem)
    ensures AtMostAfter(a, s, Cost(a) + rem[0])
    ensures s != "" && Quantifier(s[0]) ==> AtMostAfter(a, s, Cost(a) + rem[1])
  {
    var left := QuantifiedBound(a, s, rem);
    if Parse(Quantified(a, s).1, false).Some? {
      var _ := ParseBound(Quantified(a, s).1, false, left);
    }
  }

  /** A sign of syntax, or a dot, is not matched itself. */
  lemma SignAtMost(s: string, rem: seq<nat>)
    requires Fits(s, rem) && s != ""
    requires s[0] == '^' || s[0] == '$' || s[0] == '.' || s[0] == '(' || s[0] == '|' || s[0] == ')'
    ensures AtMost(s, rem[1])
  {
    if s[0] == '|' {
      if Parse(s[1..], false).Some? {
        var _ := ParseBound(s[1..], false, rem[1..]);
      }
    } else if s[0] != ')' && ParseAtom(s).Some? {
      var atom := ParseAtom(s).value;
      var left := AtomBound(s, rem);
      RemainsAfter(atom.0, atom.1, left);
      BeginsAtMost(s, atom.0, atom.1, rem[1]);
    }
  }

  /** A backslash gives up itself for what follows. */
  lemma EscapeAtMost(s: string, rem: seq<nat>)
    requires Fits(s, rem) && |s| > 1 && s[0] == '\\'
    ensures AtMost(s, Weight(s[1]) + rem[2])
  {
    if ParseAtom(s).Some? {
      FitsFrom(s, rem, 2);
      RemainsAfter(Chr(s[1]), s[2..], rem[2..]);
      BeginsAtMost(s, Chr(s[1]), s[2..], Weight(s[1]) + rem[2]);
    }
  }

  /** The text of the tokens needs less than they demand. */
  predicate Loses(ts: seq<Token>) {
    AtMost(Text(ts), Demand(ts) - 1)
  }

  predicate LosesAfter(a: Regex, ts: seq<Token>) {
    AtMostAfter(a, Text(ts), Cost(a) + Demand(ts) - 1)
  }

  /** An unescaped literal leaves what the rest demands. */
  lemma LiteralRemains(ts: seq<Token>)
    requires ts != [] && ts[0].Lit? && !Escaped(ts[0].c) && ValidNames(ParamNames(ts))
    ensures Fits(Text(ts), Remaining(ts)) && Fits(Text(ts[1..]), Remaining(ts[1..]))
    ensures Remaining(ts)[1..] == Remaining(ts[1..]) && Text(ts)[1..] == Text(ts[1..])
    ensures Text(ts)[0] == ts[0].c && Remaining(ts)[1] == Remaining(ts[1..])[0] == Demand(ts[1..]) == Demand(ts) - Weight(ts[0].c)
  {
    NamesSplit(ts);
    TextFits(ts);
    TextFits(ts[1..]);
    TextCons(ts);
    assert Remaining(ts)[1..][0] == Remaining(ts)[1];
  }

  /** A literal quantifier applies to whatever stands before it. */
  lemma QuantifierLoses(a: Regex, ts: seq<Token>)
    requires Quantifies(ts) && ValidNames(ParamNames(ts))
    ensures LosesAfter(a, ts)
  {
    LiteralRemains(ts);
    RemainsAfter(a, Text(ts), Remaining(ts));
  }

  lemma SyntaxLoses(ts: seq<Token>)
    requires ts != [] && ts[0].Lit? && Syntax(ts[0].c) && !Quantifies(ts) && ValidNames(ParamNames(ts))
    ensures Loses(ts)
  {
    LiteralRemains(ts);
    if ts[0].c == '[' {
      NoClass(ts);
    } else {
      SignAtMost(Text(ts), Remaining(ts));
    }
  }

  /** A literal bracket does not open the class of the slash: a slash is always escaped. */
  lemma NoClass(ts: seq<Token>)
    requires ts != [] && ts[0] == Lit('[')
    ensures Parse(Text(ts), false).None?
  {
    var s, u := Text(ts), ts[1..];
    TextCons(ts);
    assert s[0] == '[' && s[1..] == Text(u);
    if "[^/]" <= s {
      assert s[..4] == "[^/]" && Text(u)[0] == '^' && Text(u)[1] == '/';
      HeadOfText(u);
      assert u != [] && u[0] == Lit('^');
      TextCons(u);
      HeadOfText(u[1..]);
    }
  }

  /** A literal backslash that escapes anything but a needless backslash. */
  lemma BackslashLoses(ts: seq<Token>)
    requires ts != [] && ts[0] == Lit('\\') && !PlainAt(ts, 0) && ValidNames(ParamNames(ts))
    ensures Loses(ts)
  {
    var u := ts[1..];
    LiteralRemains(ts);
    HeadOfText(u);
    if u != [] && u[0] == Lit('.') {
      DotLoses(ts);
    } else {
      assert Text(ts)[1] == Text(u)[0] && Remaining(ts)[2] == Remaining(u)[1];
      EscapeAtMost(Text(ts), Remaining(ts));
      if u != [] && u[0] == Lit('\\') {
        NamesSplit(ts);
        LiteralRemains(u);
      }
    }
  }

  /** Before an escaped dot it takes the backslash of the escape, and the dot means every character. */
  lemma DotLoses(ts: seq<Token>)
    requires |ts| > 1 && ts[0] == Lit('\\') && ts[1] == Lit('.') && ValidNames(ParamNames(ts))
    ensures Loses(ts)
  {
    var v := ts[2..];
    var rest := ['.'] + Text(v);
    assert ts[1..][1..] == v;
    NamesSplit(ts);
    NamesSplit(ts[1..]);
    DotAtMost(v);
    BackslashBegins(ts);
    assert Quantified(Chr('\\'), rest) == (Chr('\\'), rest);
    UnquantifiedAtMost(Chr('\\'), rest, Demand(v));
    BeginsAtMost(Text(ts), Chr('\\'), rest, 2 + Demand(v));
  }

  lemma DotAtMost(ts: seq<Token>)
    requires ValidNames(ParamNames(ts))
    ensures AtMost(['.'] + Text(ts), Demand(ts))
  {
    var rem := seq(1, _ => Demand(ts)) + Remaining(ts);
    TextFits(ts);
    SteadyFits(['.'], Text(ts), Remaining(ts), Demand(ts));
    assert rem[1] == Remaining(ts)[0];
    SignAtMost(['.'] + Text(ts), rem);
  }

  /** A question mark after a star only makes the star lazy. */
  lemma LazyLoses(ts: seq<Token>)
    requires |ts| > 1 && (ts[0].Segment? || ts[0].Deep?) && ts[1] == Lit('?') && ValidNames(ParamNames(ts))
    ensures Loses(ts)
  {
    var u, v, item := ts[1..], ts[2..], ItemOf(ts[0]);
    assert u[1..] == v;
    NamesSplit(ts);
    LiteralRemains(u);
    LazyBegins(ts);
    RemainsAfter(item, Text(v), Remaining(v));
    BeginsAtMost(Text(ts), item, Text(v), Demand(v));
  }

  lemma LazyBegins(ts: seq<Token>)
    requires |ts| > 1 && (ts[0].Segment? || ts[0].Deep?) && ts[1] == Lit('?')
    ensures Begins(Text(ts), ItemOf(ts[0]), Text(ts[2..]))
  {
    assert ts[1..][1..] == ts[2..];
    TextCons(ts);
    TextCons(ts[1..]);
    HeadOfText(ts);
    assert Text(ts[1..])[1..] == Text(ts[2..]);
    TokenAtom(ts[0], Text(ts[1..]));
  }

  /** The text of tokens that are not plain needs less than they demand. */
  lemma {:induction false} Lossy(a: Regex, ts: seq<Token>)
    requires Readable(ts) && ValidNames(ParamNames(ts)) && !Plain(ts)
    ensures LosesAfter(a, ts)
    decreases |ts|, 1
  {
    if Quantifies(ts) {
      QuantifierLoses(a, ts);
    } else {
      TextLoses(ts);
      Unquantified(ts, a);
      UnquantifiedAtMost(a, Text(ts), Demand(ts) - 1);
    }
  }

  lemma {:induction false} TextLoses(ts: seq<Token>)
    requires Readable(ts) && ValidNames(ParamNames(ts)) && !Plain(ts) && !Quantifies(ts)
    ensures Loses(ts)
    decreases |ts|, 0
  {
    PlainCons(ts);
    NamesSplit(ts);
    ReadableRest(ts);
    if !PlainAt(ts, 0) {
      if ts[0] == Lit('\\') {
        BackslashLoses(ts);
      } else {
        SyntaxLoses(ts);
      }
    } else if ts[0] == Lit('\\') {
      RestNotPlain(ts);
      Lossy(Chr(ts[1].c), ts[2..]);
      LossAfterBackslash(ts);
    } else if |ts| > 1 && ts[1] == Lit('?') && (ts[0].Segment? || ts[0].Deep?) {
      LazyLoses(ts);
    } else {
      Lossy(ItemOf(ts[0]), ts[1..]);
      LossAfterToken(ts);
    }
  }

  lemma RestNotPlain(ts: seq<Token>)
    requires Readable(ts) && ValidNames(ParamNames(ts)) && !Plain(ts) && ts != [] && PlainAt(ts, 0) && ts[0] == Lit('\\')
    ensures !Plain(ts[2..]) && Readable(ts[2..]) && ValidNames(ParamNames(ts[2..]))
  {
    var u := ts[1..];
    assert u[1..] == ts[2..];
    PlainCons(ts);
    PlainCons(u);
    NamesSplit(ts);
    NamesSplit(u);
    ReadableRest(ts);
    ReadableRest(u);
  }

  lemma LossAfterToken(ts: seq<Token>)
    requires Readable(ts) && ts != [] && PlainAt(ts, 0) && ts[0] != Lit('\\') && (ts[0].Param? ==> ValidName(ts[0].name))
    requires ts[0].Segment? || ts[0].Deep? ==> |ts| == 1 || ts[1] != Lit('?')
    requires LosesAfter(ItemOf(ts[0]), ts[1..])
    ensures Loses(ts)
  {
    TokenBegins(ts);
    ItemCost(ts[0]);
    BeginsAtMost(Text(ts), ItemOf(ts[0]), Text(ts[1..]), Demand(ts) - 1);
  }

  lemma ItemCost(t: Token)
    ensures Cost(ItemOf(t)) == TokenWeight(t)
  {
  }

  lemma LossAfterBackslash(ts: seq<Token>)
    requires |ts| > 1 && ts[0] == Lit('\\') && NeedlesslyEscaped(ts[1]) && LosesAfter(Chr(ts[1].c), ts[2..])
    ensures Loses(ts)
  {
    var c, v := ts[1].c, ts[2..];
    var rest := [c] + Text(v);
    assert ts[1..][1..] == v;
    RawBegins(c, Text(v));
    BeginsAtMost(rest, Chr(c), Text(v), Demand(v) - 1);
    BackslashBegins(ts);
    UnquantifiedAtMost(Chr('\\'), rest, Demand(v) - 1);
    BeginsAtMost(Text(ts), Chr('\\'), rest, Demand(v) + 1);
  }

  // ----- names -----

  /** Group names that were read are valid. */
  lemma {:induction false} NamesRead(s: string, inGroup: bool)
    requires Parse(s, inGroup).Some?
    ensures ValidNames(Names(Parse(s, inGroup).value.0))
    decreases |s|, 1
  {
    if s != "" && s[0] == '|' {
      NamesRead(s[1..], inGroup);
    } else if s != "" && s[0] != ')' {
      var atom := ParseAtom(s).value;
      AtomNamesRead(s);
      SameNames(atom.0, atom.1);
      var item := Quantified(atom.0, atom.1);
      NamesRead(item.1, inGroup);
      NamesBefore(item.0, Parse(item.1, inGroup).value.0);
    }
  }

  lemma {:induction false} AtomNamesRead(s: string)
    requires ParseAtom(s).Some?
    ensures ValidNames(Names(ParseAtom(s).value.0))
    decreases |s|, 0
  {
    if s[0] == '(' {
      if |s| > 1 && s[1] == '?' {
        var h := Opening(s);
        var n := UpTo(s[h..], '>');
        NamesRead(s[h..][n + 1..], true);
        GroupNames(s[h..][..n], Parse(s[h..][n + 1..], true).value.0);
      } else {
        NamesRead(s[1..], true);
      }
    }
  }

  /** A quantifier names nothing. */
  lemma {:induction false} SameNames(r: Regex, s: string)
    ensures Names(Quantified(r, s).0) == Names(r)
    decreases |s|
  {
    if s != "" && Quantifier(s[0]) {
      SameNames(Under(s[0], r), Unmarked(s[1..]));
    }
  }

  lemma NamesBefore(item: Regex, r: Regex)
    requires ValidNames(Names(item)) && ValidNames(Names(r))
    ensures ValidNames(Names(Before(item, r)))
  {
    var a, b := Names(item), if r.Or? then Names(r.first) else [];
    assert r.Or? ==> Names(Before(item, r)) == (a + b) + Names(r.second) && Names(r) == b + Names(r.second);
    forall n | n in Names(Before(item, r)) ensures n in a || n in Names(r) {
    }
  }

  lemma GroupNames(name: string, body: Regex)
    requires ValidName(name) && ValidNames(Names(body))
    ensures ValidNames(Names(Group(name, body)))
  {
    assert forall x :: x in [name] + Names(body) ==> x == name || x in Names(body);
  }

  // ----- patterns that compile -----

  /** A compiled pattern is what its text reads as after the first anchor. */
  lemma CompiledText(pattern: string)
    ensures var s := "^" + EmitAll(TokensOf(pattern)) + "$";
            Begins(s, Start, Text(TokensOf(pattern))) && Compile(pattern) == ParseRegex(s)
  {
    var s := "^" + EmitAll(TokensOf(pattern)) + "$";
    assert s[1..] == Text(TokensOf(pattern));
  }

  /** A plain pattern compiles exactly when its parameter names are valid and different, and then to the
      expression of its own tokens. */
  lemma CompilesToTokens(pattern: string)
    requires Plain(TokensOf(pattern))
    ensures var ts := TokensOf(pattern);
            Compile(pattern) == if ValidNames(ParamNames(ts)) && AllDifferent(ParamNames(ts)) then Some(WholeOf(ts)) else None
  {
    var ts := TokensOf(pattern);
    TokensReadable(pattern);
    PlainUnquantified(ts);
    Unquantified(ts, Start);
    PlainReads(ts);
    CompiledText(pattern);
    ReadsOn("^" + EmitAll(ts) + "$", Start, Text(ts), Expected(ts));
    WholeNames(ts);
  }

  lemma WholeNames(ts: seq<Token>)
    ensures Names(WholeOf(ts)) == ParamNames(ts)
  {
    RegexNames(ts);
  }

  /** Compilation preserves meaning: a plain pattern that compiles matches exactly the paths it means. */
  lemma CompilationPreservesMeaning(pattern: string, path: string)
    requires Compile(pattern).Some? && Plain(TokensOf(pattern))
    ensures IsMatch(Compile(pattern).value, path) <==> Glob(TokensOf(pattern), path)
  {
    CompilesToTokens(pattern);
    LanguageIsGlob(TokensOf(pattern), path);
  }

  /** Whichever way the expression matches, each parameter of the pattern is captured, as a non-empty part of one
      segment; and whenever the path matches there is such a way. */
  lemma CapturesAreSegments(pattern: string, path: string) returns (some: map<string, string>)
    requires Compile(pattern).Some? && Plain(TokensOf(pattern))
    ensures forall caps :: Captures(Compile(pattern).value, path, caps) ==>
              && Glob(TokensOf(pattern), path)
              && (forall n :: n in caps <==> n in ParamNames(TokensOf(pattern)))
              && (forall n :: n in caps ==> caps[n] != "" && SlashFree(caps[n]))
    ensures Glob(TokensOf(pattern), path) ==> Captures(Compile(pattern).value, path, some)
  {
    var ts := TokensOf(pattern);
    CompilesToTokens(pattern);
    forall caps | Captures(WholeOf(ts), path, caps)
      ensures Glob(ts, path)
      ensures forall n :: n in caps <==> n in ParamNames(ts)
      ensures forall n :: n in caps ==> caps[n] != "" && SlashFree(caps[n])
    {
      CapturesAreParams(ts, path, caps);
      ParamValues(ts, path, caps);
    }
    some := map[];
    if Glob(ts, path) {
      some := ParamsExist(ts, path);
      CapturesAreParams(ts, path, some);
    }
  }

  // ----- which patterns keep their meaning -----

  /** The expression needs less than the pattern demands. */
  lemma CompiledLoses(pattern: string)
    requires Compile(pattern).Some? && !Plain(TokensOf(pattern)) && ValidNames(ParamNames(TokensOf(pattern)))
    ensures Cost(Compile(pattern).value) < Demand(TokensOf(pattern))
  {
    var ts := TokensOf(pattern);
    TokensReadable(pattern);
    CompiledText(pattern);
    Lossy(Start, ts);
    BeginsAtMost("^" + EmitAll(ts) + "$", Start, Text(ts), Demand(ts) - 1);
  }

  /** Every other pattern that compiles, its names being valid, either accepts a path it does not mean, with too few of
      its literals, or accepts nothing at all, not even its own text. */
  lemma SyntaxIsNotEscaped(pattern: string) returns (path: string)
    requires Compile(pattern).Some? && !Plain(TokensOf(pattern)) && ValidNames(ParamNames(TokensOf(pattern)))
    ensures var r, ts := Compile(pattern).value, TokensOf(pattern);
            if exists p :: IsMatch(r, p) then IsMatch(r, path) && !Glob(ts, path) else Glob(ts, path)
  {
    var ts, r := TokensOf(pattern), Compile(pattern).value;
    if some :| IsMatch(r, some) {
      path := ShrinkMatch(r, some);
      CompiledLoses(pattern);
      if Glob(ts, path) {
        GlobDemands(ts, path);
      }
    } else {
      path := Own(ts);
      OwnMatches(ts);
    }
  }

  /** A compiled pattern with valid names matches exactly the paths it means if and only if it is plain. */
  lemma LanguageIff(pattern: string)
    requires Compile(pattern).Some? && ValidNames(ParamNames(TokensOf(pattern)))
    ensures (forall path :: IsMatch(Compile(pattern).value, path) <==> Glob(TokensOf(pattern), path))
            <==> Plain(TokensOf(pattern))
  {
    if Plain(TokensOf(pattern)) {
      forall path ensures IsMatch(Compile(pattern).value, path) <==> Glob(TokensOf(pattern), path) {
        CompilationPreservesMeaning(pattern, path);
      }
    } else {
      var path := SyntaxIsNotEscaped(pattern);
    }
  }

  /** The pattern compiles, matches exactly the paths it means, and captures exactly its parameters' values. */
  ghost predicate KeepsMeaning(pattern: string) {
    && Compile(pattern).Some?
    && (forall path :: IsMatch(Compile(pattern).value, path) <==> Glob(TokensOf(pattern), path))
    && (forall path, caps :: Captures(Compile(pattern).value, path, caps) <==> GlobBinds(TokensOf(pattern), path, caps))
  }

  /** A pattern keeps its meaning if and only if it is plain and its names are valid and different. */
  lemma MeaningIff(pattern: string)
    ensures var ts := TokensOf(pattern);
            KeepsMeaning(pattern) <==> Plain(ts) && ValidNames(ParamNames(ts)) && AllDifferent(ParamNames(ts))
  {
    var ts := TokensOf(pattern);
    if Plain(ts) {
      CompilesToTokens(pattern);
      if Compile(pattern).Some? {
        PlainKeeps(pattern);
      }
    } else if Compile(pattern).Some? {
      if ValidNames(ParamNames(ts)) {
        var path := SyntaxIsNotEscaped(pattern);
      } else {
        InvalidNames(pattern);
      }
    }
  }

  lemma PlainKeeps(pattern: string)
    requires Compile(pattern).Some? && Plain(TokensOf(pattern))
    ensures KeepsMeaning(pattern)
  {
    var ts, r := TokensOf(pattern), Compile(pattern).value;
    CompilesToTokens(pattern);
    LanguageIff(pattern);
    forall path, caps ensures Captures(r, path, caps) <==> GlobBinds(ts, path, caps) {
      CapturesAreParams(ts, path, caps);
    }
  }

  /** A parameter whose name is not valid was not read as a group of that name. */
  lemma InvalidNames(pattern: string)
    requires Compile(pattern).Some? && !ValidNames(ParamNames(TokensOf(pattern)))
    ensures !KeepsMeaning(pattern)
  {
    var ts, r := TokensOf(pattern), Compile(pattern).value;
    OwnMatches(ts);
    if IsMatch(r, Own(ts)) {
      var caps := SomeCaptures(pattern, Own(ts));
      if GlobBinds(ts, Own(ts), caps) {
        ParamValues(ts, Own(ts), caps);
        assert false;
      }
    }
  }

  lemma SomeCaptures(pattern: string, path: string) returns (caps: map<string, string>)
    requires Compile(pattern).Some? && IsMatch(Compile(pattern).value, path)
    ensures Captures(Compile(pattern).value, path, caps) && forall n :: n in caps ==> ValidName(n)
  {
    var r := Compile(pattern).value;
    var i, j :| 0 <= i <= j <= |path| && MatchesAt(r, path[i..j], i == 0, j == |path|);
    caps := MatchCaptures(r, path[i..j], i == 0, j == |path|);
    NamesRead("^" + EmitAll(TokensOf(pattern)) + "$", false);
  }
}
