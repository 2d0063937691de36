/** Route path patterns (src/proxy/mod.rs, `compile_path_pattern`): the tokens of a pattern, the string of a
    regular expression that the compiler writes, what patterns mean, and the expression that means the same. */
module PathPattern {
  import opened Resources
  import opened Strings
  import opened RegularExpressions

  datatype Token = Lit(c: char) | Segment | Deep | Param(name: string)

  /** How many leading characters belong to a parameter name. */
  function NameRun(s: string): (n: nat)
    ensures n <= |s|
  {
    if s == "" || !NameChar(s[0]) then 0 else 1 + NameRun(s[1..])
  }

  /** The first token of a non-empty rest, and how many characters it takes. */
  function NextToken(s: string): (r: (Token, nat))
    requires s != ""
    ensures 1 <= r.1 <= |s|
  {
    if s[0] == '*' then
      if |s| > 1 && s[1] == '*' then (Deep, 2) else (Segment, 1)
    else if s[0] == ':' then
      var n := NameRun(s[1..]);
      (Param(s[1..n + 1]), n + 1)
    else if s[0] == '{' then
      var n := UpTo(s[1..], '}');
      (Param(s[1..n + 1]), if n + 1 < |s| then n + 2 else n + 1)
    else (Lit(s[0]), 1)
  }

  /** What a pattern consists of. */
  function TokensOf(p: string): seq<Token>
    decreases |p|
  {
    if p == "" then [] else [NextToken(p).0] + TokensOf(p[NextToken(p).1..])
  }

  predicate Escaped(c: char) {
    c == '/' || c == '.' || c == '-' || c == '_'
  }

  function EmitToken(t: Token): string {
    match t
    case Lit(c) => if Escaped(c) then ['\\', c] else [c]
    case Segment => "[^/]*"
    case Deep => ".*"
    case Param(name) => "(?P<" + name + ">[^/]+)"
  }

  function EmitAll(ts: seq<Token>): string {
    if ts == [] then "" else EmitToken(ts[0]) + EmitAll(ts[1..])
  }

  lemma {:induction false} EmitAppend(ts: seq<Token>, t: Token)
    ensures EmitAll(ts + [t]) == EmitAll(ts) + EmitToken(t)
    decreases |ts|
  {
    if ts == [] {
      assert ts + [t] == [t];
    } else {
      EmitAppend(ts[1..], t);
      assert (ts + [t])[1..] == ts[1..] + [t];
      Associate(EmitToken(ts[0]), EmitAll(ts[1..]), EmitToken(t));
    }
  }

  /** The compiler's loop over the characters of the pattern. */
  method CompilePathPattern(pattern: string) returns (regex: string)
    ensures regex == "^" + EmitAll(TokensOf(pattern)) + "$"
  {
    regex := "^";
    var i := 0;
    ghost var done: seq<Token> := [];
    assert pattern[0..] == pattern;
    while i < |pattern|
      invariant i <= |pattern|
      invariant TokensOf(pattern) == done + TokensOf(pattern[i..])
      invariant regex == "^" + EmitAll(done)
    {
      var piece, next := CompileItem(pattern, i);
      ghost var token := NextToken(pattern[i..]).0;
      TakeToken(pattern, i, next, done);
      Written(regex, done, piece, token);
      regex, i, done := regex + piece, next, done + [token];
    }
    assert TokensOf(pattern[i..]) == [];
    assert done == TokensOf(pattern);
    regex := regex + "$";
  }

  lemma Written(regex: string, done: seq<Token>, piece: string, token: Token)
    requires regex == "^" + EmitAll(done) && piece == EmitToken(token)
    ensures regex + piece == "^" + EmitAll(done + [token])
  {
    EmitAppend(done, token);
    Associate("^", EmitAll(done), piece);
  }

  lemma TakeToken(pattern: string, i: nat, next: nat, done: seq<Token>)
    requires i < next <= |pattern| && next - i == NextToken(pattern[i..]).1
    ensures done + TokensOf(pattern[i..]) == done + [NextToken(pattern[i..]).0] + TokensOf(pattern[next..])
  {
    var token, rest := NextToken(pattern[i..]).0, TokensOf(pattern[next..]);
    assert pattern[i..][next - i..] == pattern[next..];
    assert TokensOf(pattern[i..]) == [token] + rest;
    Associate(done, [token], rest);
  }

  /** One turn of the loop: what is written for the item at `i`, and where the next one starts. */
  method CompileItem(pattern: string, i: nat) returns (piece: string, next: nat)
    requires i < |pattern|
    ensures i < next <= |pattern|
    ensures (piece, next - i) == (EmitToken(NextToken(pattern[i..]).0), NextToken(pattern[i..]).1)
  {
    next := i + 1;
    match pattern[i]
    case '*' =>
      if next < |pattern| && pattern[next] == '*' {
        next := next + 1;
        piece := ".*";
      } else {
        piece := "[^/]*";
      }
    case ':' =>
      var end := TakeName(pattern, next);
      piece := "(?P<" + pattern[next..end] + ">[^/]+)";
      assert pattern[i..][1..] == pattern[next..] && pattern[i..][1..end - i] == pattern[next..end];
      next := end;
    case '{' =>
      var end := TakeBraced(pattern, next);
      piece := "(?P<" + pattern[next..end] + ">[^/]+)";
      assert pattern[i..][1..] == pattern[next..] && pattern[i..][1..end - i] == pattern[next..end];
      next := if end < |pattern| then end + 1 else end;
    case c =>
      piece := if Escaped(c) then ['\\', c] else [c];
  }

  /** The end of the parameter name that starts at `i`. */
  method TakeName(pattern: string, i: nat) returns (n: nat)
    requires i <= |pattern|
    ensures i <= n <= |pattern| && n == i + NameRun(pattern[i..])
  {
    n := i;
    while n < |pattern| && NameChar(pattern[n])
      invariant i <= n <= |pattern| && i + NameRun(pattern[i..]) == n + NameRun(pattern[n..])
    {
      assert pattern[n..][1..] == pattern[n + 1..];
      n := n + 1;
    }
  }

  /** The position of the closing brace, or the end. */
  method TakeBraced(pattern: string, i: nat) returns (n: nat)
    requires i <= |pattern|
    ensures i <= n <= |pattern| && n == i + UpTo(pattern[i..], '}')
  {
    n := i;
    while n < |pattern| && pattern[n] != '}'
      invariant i <= n <= |pattern| && i + UpTo(pattern[i..], '}') == n + UpTo(pattern[n..], '}')
    {
      assert pattern[n..][1..] == pattern[n + 1..];
      n := n + 1;
    }
  }

  // ----- what the tokens of a pattern are -----

  /** How a token is spelled in a pattern, parameters in braces. */
  function Spelling(t: Token): string {
    match t
    case Lit(c) => [c]
    case Segment => "*"
    case Deep => "**"
    case Param(name) => "{" + name + "}"
  }

  function SpellAll(ts: seq<Token>): string {
    if ts == [] then "" else Spelling(ts[0]) + SpellAll(ts[1..])
  }

  /** Token lists that can be spelled: no special character as a literal, no brace in a name, and no single star
      right before another star. */
  predicate Spellable(ts: seq<Token>) {
    && (forall t :: t in ts ==> (t.Lit? ==> t.c !in "*:{") && (t.Param? ==> '}' !in t.name))
    && (forall i :: 0 <= i < |ts| - 1 && ts[i].Segment? ==> !ts[i + 1].Segment? && !ts[i + 1].Deep?)
  }

  /** Reading a spelled list of tokens gives the list back. */
  lemma {:induction false} TokensOfSpelling(ts: seq<Token>)
    requires Spellable(ts)
    ensures TokensOf(SpellAll(ts)) == ts
    decreases |ts|
  {
    if ts != [] {
      SpellableRest(ts);
      TokensOfSpelling(ts[1..]);
      FirstSpelled(ts);
      Tokenized(Spelling(ts[0]), SpellAll(ts[1..]), ts[0]);
    }
  }

  lemma SpellableRest(ts: seq<Token>)
    requires Spellable(ts) && ts != []
    ensures Spellable(ts[1..])
  {
    assert forall t :: t in ts[1..] ==> t in ts;
  }

  lemma FirstSpelled(ts: seq<Token>)
    requires Spellable(ts) && ts != []
    ensures NextToken(Spelling(ts[0]) + SpellAll(ts[1..])) == (ts[0], |Spelling(ts[0])|)
  {
    assert ts[0] in ts;
    if ts[0].Segment? { NoStarAfter(ts); }
    SpelledNext(ts[0], SpellAll(ts[1..]));
  }

  lemma Tokenized(spelling: string, rest: string, t: Token)
    requires spelling != "" && NextToken(spelling + rest) == (t, |spelling|)
    ensures TokensOf(spelling + rest) == [t] + TokensOf(rest)
  {
    assert (spelling + rest)[|spelling|..] == rest;
  }

  lemma SpelledNext(t: Token, rest: string)
    requires (t.Lit? ==> t.c !in "*:{") && (t.Param? ==> '}' !in t.name)
    requires t.Segment? && rest != "" ==> rest[0] != '*'
    ensures NextToken(Spelling(t) + rest) == (t, |Spelling(t)|)
  {
    match t
    case Lit(_) =>
    case Segment =>
    case Deep =>
    case Param(name) => BracedNext(name, rest);
  }

  lemma BracedNext(name: string, rest: string)
    requires '}' !in name
    ensures NextToken("{" + name + "}" + rest) == (Param(name), |name| + 2)
  {
    var p := "{" + name + "}" + rest;
    assert p[1..] == name + ['}'] + rest;
    UpToAfter(name, rest, '}');
    assert p[1..|name| + 1] == name;
  }

  lemma NoStarAfter(ts: seq<Token>)
    requires ts != [] && ts[0].Segment? && Spellable(ts)
    ensures var rest := SpellAll(ts[1..]); rest != "" ==> rest[0] != '*'
  {
    var rest := ts[1..];
    if rest != [] {
      assert rest[0] == ts[1] && rest[0] in ts;
      assert SpellAll(rest)[0] == Spelling(rest[0])[0];
    }
  }

  /** A parameter after a colon takes the longest run of name characters. */
  lemma {:induction false} ColonParameter(name: string, rest: string)
    requires (forall c :: c in name ==> NameChar(c)) && (rest != "" ==> !NameChar(rest[0]))
    ensures TokensOf(":" + name + rest) == [Param(name)] + TokensOf(rest)
  {
    var p := ":" + name + rest;
    assert p[1..] == name + rest;
    NameRunEnds(name, rest);
    assert p[1..|name| + 1] == name && p[|name| + 1..] == rest;
  }

  lemma {:induction false} NameRunEnds(name: string, rest: string)
    requires (forall c :: c in name ==> NameChar(c)) && (rest != "" ==> !NameChar(rest[0]))
    ensures NameRun(name + rest) == |name|
    decreases |name|
  {
    if name == "" {
      assert name + rest == rest;
    } else {
      assert (name + rest)[1..] == name[1..] + rest && name[0] in name;
      NameRunEnds(name[1..], rest);
    }
  }

  /** A brace that is never closed takes the rest of the pattern as the name. */
  lemma {:induction false} UnclosedBrace(name: string)
    requires '}' !in name
    ensures TokensOf("{" + name) == [Param(name)]
  {
    UnclosedNext(name);
    Tokenized("{" + name, "", Param(name));
    assert "{" + name + "" == "{" + name;
  }

  lemma UnclosedNext(name: string)
    requires '}' !in name
    ensures NextToken("{" + name + "") == (Param(name), |"{" + name|)
  {
    var p := "{" + name + "";
    assert p[1..] == name && UpTo(name, '}') == |name| && p[1..|name| + 1] == name;
  }

  /** The compiled form of a pattern; the router drops patterns without one. */
  function Compile(pattern: string): Option<Regex> {
    ParseRegex("^" + EmitAll(TokensOf(pattern)) + "$")
  }

  // ----- what a pattern means -----

  predicate SlashFree(s: string) {
    '/' !in s
  }

  /** The dot of a regular expression matches every character but a line feed. */
  predicate OneLine(s: string) {
    '\n' !in s
  }

  /** The direct meaning: `*` stays inside a segment, `**` crosses segments, a parameter takes a non-empty part
      of a segment. */
  predicate Glob(ts: seq<Token>, path: string)
    decreases |ts|
  {
    if ts == [] then path == ""
    else
      match ts[0]
      case Lit(c) => path != "" && path[0] == c && Glob(ts[1..], path[1..])
      case Segment => exists k :: 0 <= k <= |path| && SlashFree(path[..k]) && Glob(ts[1..], path[k..])
      case Deep => exists k :: 0 <= k <= |path| && OneLine(path[..k]) && Glob(ts[1..], path[k..])
      case Param(_) => exists k :: 1 <= k <= |path| && SlashFree(path[..k]) && Glob(ts[1..], path[k..])
  }

  /** The same with the parameters' values. */
  ghost predicate GlobBinds(ts: seq<Token>, path: string, caps: map<string, string>)
    decreases |ts|
  {
    if ts == [] then path == "" && caps == map[]
    else
      match ts[0]
      case Lit(c) => path != "" && path[0] == c && GlobBinds(ts[1..], path[1..], caps)
      case Segment => exists k :: 0 <= k <= |path| && SlashFree(path[..k]) && GlobBinds(ts[1..], path[k..], caps)
      case Deep => exists k :: 0 <= k <= |path| && OneLine(path[..k]) && GlobBinds(ts[1..], path[k..], caps)
      case Param(name) =>
        exists k :: 1 <= k <= |path| && SlashFree(path[..k])
                    && name in caps && caps[name] == path[..k] && GlobBinds(ts[1..], path[k..], caps - {name})
  }

  function ParamNames(ts: seq<Token>): seq<string> {
    if ts == [] then []
    else (if ts[0].Param? then [ts[0].name] else []) + ParamNames(ts[1..])
  }

  // ----- the expression of a pattern's own tokens -----

  function ItemOf(t: Token): Regex {
    match t
    case Lit(c) => Chr(c)
    case Segment => Star(NotSlash)
    case Deep => Star(Dot)
    case Param(name) => Group(name, Then(Plus(NotSlash), Empty))
  }

  /** The items one after another, up to the end of the string. */
  function RegexOf(ts: seq<Token>): Regex {
    if ts == [] then Then(End, Empty) else Then(ItemOf(ts[0]), RegexOf(ts[1..]))
  }

  function WholeOf(ts: seq<Token>): Regex {
    Then(Start, RegexOf(ts))
  }

  lemma NamesSplit(ts: seq<Token>)
    requires ts != []
    ensures ValidNames(ParamNames(ts)) <==> (ts[0].Param? ==> ValidName(ts[0].name)) && ValidNames(ParamNames(ts[1..]))
  {
    if ts[0].Param? {
      assert ParamNames(ts)[0] == ts[0].name;
      assert forall n :: n in ParamNames(ts[1..]) ==> n in ParamNames(ts);
    }
  }

  lemma {:induction false} RegexNames(ts: seq<Token>)
    ensures Names(RegexOf(ts)) == ParamNames(ts)
    decreases |ts|
  {
    if ts != [] {
      RegexNames(ts[1..]);
      assert Names(ItemOf(ts[0])) == if ts[0].Param? then [ts[0].name] else [];
    }
  }

  // ----- and it means what the tokens mean -----

  lemma {:induction false} RepeatsOfClass(r: Regex, s: string, bad: char, first: bool, last: bool)
    requires (r == NotSlash && bad == '/') || (r == Dot && bad == '\n')
    ensures Repeats(r, s, first, last) <==> bad !in s
    decreases |s|
  {
    if s != "" {
      if Repeats(r, s, first, last) {
        var k :| 1 <= k <= |s| && MatchesAt(r, s[..k], first, last && k == |s|) && Repeats(r, s[k..], false, last);
        RepeatsOfClass(r, s[k..], bad, false, last);
        assert s == s[..k] + s[k..];
      }
      if bad !in s {
        RepeatsOfClass(r, s[1..], bad, false, last);
        assert MatchesAt(r, s[..1], first, last && 1 == |s|) && Repeats(r, s[1..], false, last);
      }
    }
  }

  lemma PlusOfSegment(s: string, first: bool, last: bool)
    ensures MatchesAt(Plus(NotSlash), s, first, last) <==> s != "" && SlashFree(s)
  {
    if s != "" {
      RepeatsOfClass(NotSlash, s[1..], '/', false, last);
      assert s == s[..1] + s[1..];
    }
    if k :| 0 <= k <= |s| && MatchesAt(NotSlash, s[..k], first, last && k == |s|) && Repeats(NotSlash, s[k..], first && k == 0, last) {
      assert k == 1;
    }
    if s != "" && SlashFree(s) {
      assert MatchesAt(NotSlash, s[..1], first, last && 1 == |s|) && Repeats(NotSlash, s[1..], first && 1 == 0, last);
    }
  }

  lemma ThenEmpty(r: Regex, s: string, first: bool, last: bool)
    ensures MatchesAt(Then(r, Empty), s, first, last) <==> MatchesAt(r, s, first, last)
  {
    assert s[..|s|] == s && s[|s|..] == "";
    if k :| 0 <= k <= |s| && MatchesAt(r, s[..k], first, last && k == |s|) && MatchesAt(Empty, s[k..], first && k == 0, last) {
      assert k == |s|;
    }
  }

  /** What one item matches, wherever it stands. */
  lemma ItemMatch(t: Token, s: string, first: bool, last: bool)
    ensures MatchesAt(ItemOf(t), s, first, last) <==> ItemMeans(t, s)
  {
    match t
    case Lit(_) =>
    case Segment => RepeatsOfClass(NotSlash, s, '/', first, last);
    case Deep => RepeatsOfClass(Dot, s, '\n', first, last);
    case Param(_) =>
      ThenEmpty(Plus(NotSlash), s, first, last);
      PlusOfSegment(s, first, last);
  }

  lemma {:induction false} RestIsGlob(ts: seq<Token>, s: string, first: bool, last: bool)
    ensures MatchesAt(RegexOf(ts), s, first, last) <==> last && Glob(ts, s)
    decreases |ts|
  {
    if ts == [] {
      assert s == "" ==> s[..0] == "" && s[0..] == "";
    } else {
      forall k | 0 <= k <= |s|
        ensures MatchesAt(ItemOf(ts[0]), s[..k], first, last && k == |s|) && MatchesAt(RegexOf(ts[1..]), s[k..], first && k == 0, last)
                <==> ItemMeans(ts[0], s[..k]) && last && Glob(ts[1..], s[k..])
      {
        ItemMatch(ts[0], s[..k], first, last && k == |s|);
        RestIsGlob(ts[1..], s[k..], first && k == 0, last);
      }
      GlobByItem(ts, s);
    }
  }

  /** The language of the expression is the direct meaning of the tokens. */
  lemma LanguageIsGlob(ts: seq<Token>, path: string)
    ensures IsMatch(WholeOf(ts), path) <==> Glob(ts, path)
  {
    forall i, j | 0 <= i <= j <= |path|
      ensures MatchesAt(WholeOf(ts), path[i..j], i == 0, j == |path|) <==> i == 0 && j == |path| && Glob(ts, path[i..j])
    {
      AnchoredPart(ts, path[i..j], i == 0, j == |path|);
    }
    assert path[0..|path|] == path;
  }

  lemma AnchoredPart(ts: seq<Token>, s: string, first: bool, last: bool)
    ensures MatchesAt(WholeOf(ts), s, first, last) <==> first && last && Glob(ts, s)
  {
    RestIsGlob(ts, s, first, last);
    assert s[..0] == "" && s[0..] == s;
  }

  predicate ItemMeans(t: Token, s: string) {
    match t
    case Lit(c) => s == [c]
    case Segment => SlashFree(s)
    case Deep => OneLine(s)
    case Param(_) => s != "" && SlashFree(s)
  }

  lemma GlobByItem(ts: seq<Token>, path: string)
    requires ts != []
    ensures Glob(ts, path) <==> exists k :: 0 <= k <= |path| && ItemMeans(ts[0], path[..k]) && Glob(ts[1..], path[k..])
  {
    if ts[0].Lit? && path != "" && path[0] == ts[0].c {
      assert path[..1] == [ts[0].c];
    }
  }

  /** `*` and parameters never cross a slash: without `**` a path has exactly the slashes of the pattern. */
  lemma {:induction false} SameSlashes(ts: seq<Token>, path: string)
    requires Deep !in ts && Glob(ts, path)
    ensures multiset(path)['/'] == multiset(ts)[Lit('/')]
    decreases |ts|
  {
    if ts != [] {
      GlobByItem(ts, path);
      var k :| 0 <= k <= |path| && ItemMeans(ts[0], path[..k]) && Glob(ts[1..], path[k..]);
      SameSlashes(ts[1..], path[k..]);
      SlashesAdd(path, k);
      ItemSlashes(ts, path[..k]);
    }
  }

  lemma SlashesAdd(path: string, k: nat)
    requires k <= |path|
    ensures multiset(path)['/'] == multiset(path[..k])['/'] + multiset(path[k..])['/']
  {
    assert path == path[..k] + path[k..];
  }

  lemma ItemSlashes(ts: seq<Token>, part: string)
    requires ts != [] && ts[0] != Deep && ItemMeans(ts[0], part)
    ensures multiset(ts)[Lit('/')] == multiset(part)['/'] + multiset(ts[1..])[Lit('/')]
  {
    assert ts == [ts[0]] + ts[1..];
    assert !ts[0].Lit? ==> '/' !in part;
  }

  // ----- captures -----

  function OwnCapture(t: Token, s: string): map<string, string> {
    if t.Param? then map[t.name := s] else map[]
  }

  lemma {:induction false} ClassBindsMore(r: Regex, s: string, first: bool, last: bool, caps: map<string, string>)
    requires r == NotSlash || r == Dot
    ensures BindsMore(r, s, first, last, caps) <==> Repeats(r, s, first, last) && caps == map[]
    decreases |s|
  {
    if s != "" {
      if BindsMore(r, s, first, last, caps) {
        var k, x, y := MoreParts(r, s, first, last, caps);
        ClassBindsMore(r, s[k..], false, last, y);
      }
      if Repeats(r, s, first, last) {
        var k :| 1 <= k <= |s| && MatchesAt(r, s[..k], first, last && k == |s|) && Repeats(r, s[k..], false, last);
        ClassBindsMore(r, s[k..], false, last, map[]);
        MoreJoin(r, s, first, last, k, map[], map[]);
      }
    }
  }

  lemma ClassBindsRounds(r: Regex, s: string, first: bool, last: bool, caps: map<string, string>)
    requires r == NotSlash || r == Dot
    ensures BindsRounds(r, s, first, last, caps) <==> MatchesAt(Plus(r), s, first, last) && caps == map[]
  {
    if BindsRounds(r, s, first, last, caps) {
      var k, x, y := RoundParts(r, s, first, last, caps);
      ClassBindsMore(r, s[k..], first && k == 0, last, y);
    }
    if MatchesAt(Plus(r), s, first, last) {
      ClassRounds(r, s, first, last);
    }
  }

  lemma ClassRounds(r: Regex, s: string, first: bool, last: bool)
    requires (r == NotSlash || r == Dot) && MatchesAt(Plus(r), s, first, last)
    ensures BindsRounds(r, s, first, last, map[])
  {
    var k :| 0 <= k <= |s| && MatchesAt(r, s[..k], first, last && k == |s|) && Repeats(r, s[k..], first && k == 0, last);
    ClassBindsMore(r, s[k..], first && k == 0, last, map[]);
    RoundJoin(r, s, first, last, k, map[], map[]);
  }

  /** What one item captures. */
  lemma ItemBinds(t: Token, s: string, first: bool, last: bool, caps: map<string, string>)
    ensures Binds(ItemOf(t), s, first, last, caps) <==> ItemMeans(t, s) && caps == OwnCapture(t, s)
  {
    ItemMatch(t, s, first, last);
    match t
    case Lit(_) =>
    case Segment => ClassStarBinds(NotSlash, s, first, last, caps);
    case Deep => ClassStarBinds(Dot, s, first, last, caps);
    case Param(name) =>
      BodyBinds(s, first, last, caps - {name});
      ThenEmpty(Plus(NotSlash), s, first, last);
      assert name in caps && caps - {name} == map[] ==> caps == map[name := caps[name]];
      assert map[name := s] - {name} == map[];
  }

  lemma ClassStarBinds(r: Regex, s: string, first: bool, last: bool, caps: map<string, string>)
    requires r == NotSlash || r == Dot
    ensures Binds(Star(r), s, first, last, caps) <==> MatchesAt(Star(r), s, first, last) && caps == map[]
  {
    ClassBindsRounds(r, s, first, last, caps);
    if s != "" {
      assert MatchesAt(Plus(r), s, first, last) <==> Repeats(r, s, first, last);
    }
  }

  lemma BodyBinds(s: string, first: bool, last: bool, caps: map<string, string>)
    ensures Binds(Then(Plus(NotSlash), Empty), s, first, last, caps) <==> MatchesAt(Plus(NotSlash), s, first, last) && caps == map[]
  {
    if Binds(Then(Plus(NotSlash), Empty), s, first, last, caps) {
      var k, x, y := ThenParts(Plus(NotSlash), Empty, s, first, last, caps);
      assert k == |s| && s[..|s|] == s;
      ClassBindsRounds(NotSlash, s, first, last, x);
    }
    if MatchesAt(Plus(NotSlash), s, first, last) {
      assert s[..|s|] == s && s[|s|..] == "";
      ClassBindsRounds(NotSlash, s, first, last, map[]);
      ThenJoin(Plus(NotSlash), Empty, s, first, last, |s|, map[], map[]);
    }
  }

  lemma ValuesJoin(ts: seq<Token>, s: string, caps: map<string, string>, k: nat, x: map<string, string>, y: map<string, string>)
    requires ts != [] && AllDifferent(ParamNames(ts)) && k <= |s|
    requires ItemMeans(ts[0], s[..k]) && x == OwnCapture(ts[0], s[..k]) && GlobBinds(ts[1..], s[k..], y) && caps == x + y
    ensures GlobBinds(ts, s, caps)
  {
    RestDifferent(ts);
    ParamValues(ts[1..], s[k..], y);
    assert y == if ts[0].Param? then caps - {ts[0].name} else caps;
    assert BindsAt(ts, s, caps, k);
    GlobBindsByItem(ts, s, caps);
  }

  lemma ValuesSplit(ts: seq<Token>, s: string, caps: map<string, string>) returns (k: nat, x: map<string, string>, y: map<string, string>)
    requires ts != [] && GlobBinds(ts, s, caps)
    ensures k <= |s| && ItemMeans(ts[0], s[..k]) && x == OwnCapture(ts[0], s[..k]) && GlobBinds(ts[1..], s[k..], y) && caps == x + y
  {
    GlobBindsByItem(ts, s, caps);
    k :| 0 <= k <= |s| && BindsAt(ts, s, caps, k);
    x, y := OwnCapture(ts[0], s[..k]), if ts[0].Param? then caps - {ts[0].name} else caps;
  }

  /** The captures of the expression are the parameter values of the tokens. */
  lemma {:induction false} RestBinds(ts: seq<Token>, s: string, first: bool, last: bool, caps: map<string, string>)
    requires AllDifferent(ParamNames(ts))
    ensures Binds(RegexOf(ts), s, first, last, caps) <==> last && GlobBinds(ts, s, caps)
    decreases |ts|, 1
  {
    if ts == [] {
      EndBinds(s, first, last, caps);
    } else {
      if Binds(RegexOf(ts), s, first, last, caps) {
        RestValues(ts, s, first, last, caps);
      }
      if last && GlobBinds(ts, s, caps) {
        ValuesBind(ts, s, first, caps);
      }
    }
  }

  lemma {:induction false} RestValues(ts: seq<Token>, s: string, first: bool, last: bool, caps: map<string, string>)
    requires ts != [] && AllDifferent(ParamNames(ts)) && Binds(RegexOf(ts), s, first, last, caps)
    ensures last && GlobBinds(ts, s, caps)
    decreases |ts|, 0
  {
    var item, rest := ItemOf(ts[0]), RegexOf(ts[1..]);
    var k, x, y := ThenParts(item, rest, s, first, last, caps);
    RestDifferent(ts);
    ItemBinds(ts[0], s[..k], first, last && k == |s|, x);
    RestBinds(ts[1..], s[k..], first && k == 0, last, y);
    ValuesJoin(ts, s, caps, k, x, y);
  }

  lemma {:induction false} ValuesBind(ts: seq<Token>, s: string, first: bool, caps: map<string, string>)
    requires ts != [] && AllDifferent(ParamNames(ts)) && GlobBinds(ts, s, caps)
    ensures Binds(RegexOf(ts), s, first, true, caps)
    decreases |ts|, 0
  {
    var item, rest := ItemOf(ts[0]), RegexOf(ts[1..]);
    var k, x, y := ValuesSplit(ts, s, caps);
    RestDifferent(ts);
    ItemBinds(ts[0], s[..k], first, k == |s|, x);
    RestBinds(ts[1..], s[k..], first && k == 0, true, y);
    ThenJoin(item, rest, s, first, true, k, x, y);
  }

  lemma EndBinds(s: string, first: bool, last: bool, caps: map<string, string>)
    ensures Binds(Then(End, Empty), s, first, last, caps) <==> last && s == "" && caps == map[]
  {
    if Binds(Then(End, Empty), s, first, last, caps) {
      var k, x, y := ThenParts(End, Empty, s, first, last, caps);
    }
    if last && s == "" {
      ThenJoin(End, Empty, s, first, last, 0, map[], map[]);
    }
  }

  lemma CapturesAreParams(ts: seq<Token>, path: string, caps: map<string, string>)
    requires AllDifferent(ParamNames(ts))
    ensures Captures(WholeOf(ts), path, caps) <==> GlobBinds(ts, path, caps)
  {
    forall i, j | 0 <= i <= j <= |path|
      ensures Binds(WholeOf(ts), path[i..j], i == 0, j == |path|, caps) <==> i == 0 && j == |path| && GlobBinds(ts, path[i..j], caps)
    {
      AnchoredBinds(ts, path[i..j], i == 0, j == |path|, caps);
    }
    assert path[0..|path|] == path;
  }

  lemma AnchoredBinds(ts: seq<Token>, s: string, first: bool, last: bool, caps: map<string, string>)
    requires AllDifferent(ParamNames(ts))
    ensures Binds(WholeOf(ts), s, first, last, caps) <==> first && last && GlobBinds(ts, s, caps)
  {
    StartBinds(RegexOf(ts), s, first, last, caps);
    RestBinds(ts, s, first, last, caps);
  }

  lemma StartBinds(r: Regex, s: string, first: bool, last: bool, caps: map<string, string>)
    ensures Binds(Then(Start, r), s, first, last, caps) <==> first && Binds(r, s, first, last, caps)
  {
    if Binds(Then(Start, r), s, first, last, caps) {
      var k, x, y := ThenParts(Start, r, s, first, last, caps);
      assert s[0..] == s && y == caps;
    }
    if first && Binds(r, s, first, last, caps) {
      assert s[0..] == s && map[] + caps == caps;
      ThenJoin(Start, r, s, first, last, 0, map[], caps);
    }
  }

  ghost predicate BindsAt(ts: seq<Token>, path: string, caps: map<string, string>, k: nat)
    requires ts != [] && k <= |path|
  {
    && ItemMeans(ts[0], path[..k]) && (ts[0].Param? ==> ts[0].name in caps && caps[ts[0].name] == path[..k])
    && GlobBinds(ts[1..], path[k..], if ts[0].Param? then caps - {ts[0].name} else caps)
  }

  lemma GlobBindsByItem(ts: seq<Token>, path: string, caps: map<string, string>)
    requires ts != []
    ensures GlobBinds(ts, path, caps) <==> exists k :: 0 <= k <= |path| && BindsAt(ts, path, caps, k)
  {
    if GlobBinds(ts, path, caps) {
      match ts[0]
      case Lit(c) =>
        assert path[..1] == [c];
        assert BindsAt(ts, path, caps, 1);
      case Segment =>
        var k :| 0 <= k <= |path| && SlashFree(path[..k]) && GlobBinds(ts[1..], path[k..], caps);
        assert BindsAt(ts, path, caps, k);
      case Deep =>
        var k :| 0 <= k <= |path| && OneLine(path[..k]) && GlobBinds(ts[1..], path[k..], caps);
        assert BindsAt(ts, path, caps, k);
      case Param(name) =>
        var k :| 1 <= k <= |path| && SlashFree(path[..k])
                 && name in caps && caps[name] == path[..k] && GlobBinds(ts[1..], path[k..], caps - {name});
        assert BindsAt(ts, path, caps, k);
    }
    if k :| 0 <= k <= |path| && BindsAt(ts, path, caps, k) {
      if ts[0].Lit? { assert |path[..k]| == 1 && path[..k][0] == path[0]; }
    }
  }

  /** Parameter values are non-empty parts of one segment, one for each name of the pattern. */
  lemma {:induction false} ParamValues(ts: seq<Token>, path: string, caps: map<string, string>)
    requires GlobBinds(ts, path, caps)
    ensures Glob(ts, path)
    ensures forall n :: n in caps <==> n in ParamNames(ts)
    ensures forall n :: n in caps ==> caps[n] != "" && SlashFree(caps[n])
    decreases |ts|
  {
    if ts != [] {
      GlobBindsByItem(ts, path, caps);
      var k :| 0 <= k <= |path| && BindsAt(ts, path, caps, k);
      ParamValues(ts[1..], path[k..], if ts[0].Param? then caps - {ts[0].name} else caps);
      GlobByItem(ts, path);
    }
  }

  /** Whenever the path matches, different names can all be given a value. */
  lemma {:induction false} ParamsExist(ts: seq<Token>, path: string) returns (caps: map<string, string>)
    requires Glob(ts, path) && AllDifferent(ParamNames(ts))
    ensures GlobBinds(ts, path, caps)
    decreases |ts|
  {
    if ts == [] {
      caps := map[];
    } else {
      GlobByItem(ts, path);
      var k :| 0 <= k <= |path| && ItemMeans(ts[0], path[..k]) && Glob(ts[1..], path[k..]);
      RestDifferent(ts);
      var rest := ParamsExist(ts[1..], path[k..]);
      if ts[0].Param? {
        ParamValues(ts[1..], path[k..], rest);
        caps := rest[ts[0].name := path[..k]];
        assert caps - {ts[0].name} == rest;
      } else {
        caps := rest;
      }
      assert BindsAt(ts, path, caps, k);
      GlobBindsByItem(ts, path, caps);
    }
  }

  lemma {:induction false} RestDifferent(ts: seq<Token>)
    requires ts != [] && AllDifferent(ParamNames(ts))
    ensures AllDifferent(ParamNames(ts[1..]))
    ensures ts[0].Param? ==> ts[0].name !in ParamNames(ts[1..])
  {
    var front := if ts[0].Param? then [ts[0].name] else [];
    DifferentParts(front, ParamNames(ts[1..]));
    assert ts[0].Param? ==> front[0] == ts[0].name;
  }
}
