/** Regular expressions as the `regex` crate reads and matches them: characters, escaped punctuation, the dot,
    the class of everything but a slash, anchors, groups with and without a name, the quantifiers `?`, `*` and
    `+`, lazy or not and one upon another, and alternatives. */
module RegularExpressions {
  import opened Resources
  import opened Strings

  datatype Regex =
    | Empty
    | Start
    | End
    | Chr(c: char)
    | Dot
    | NotSlash
    | Opt(body: Regex)
    | Star(body: Regex)
    | Plus(body: Regex)
    | Group(name: string, body: Regex)
    | Paren(body: Regex)
    | Then(first: Regex, second: Regex)
    | Or(first: Regex, second: Regex)

  // ----- reading -----

  predicate Quantifier(c: char) {
    c == '*' || c == '+' || c == '?'
  }

  /** Syntax when it stands unescaped outside a class; a closing bracket or brace alone is not. */
  predicate Meta(c: char) {
    Quantifier(c) || c == '\\' || c == '.' || c == '(' || c == ')' || c == '|' || c == '[' || c == '{' || c == '^' || c == '$'
  }

  /** Group names start with a letter or underscore and go on with letters, digits and `_ . [ ]`. */
  predicate ValidName(name: string) {
    && name != "" && (Alphabetic(name[0]) || name[0] == '_')
    && forall i :: 0 <= i < |name| ==> NameChar(name[i]) || name[i] in ".[]"
  }

  /** Characters that mean themselves after a backslash; letters, digits and angle brackets do not. */
  predicate Escapable(c: char) {
    Ascii(c) && !Alphanumeric(c) && c != '<' && c != '>'
  }

  /** How long the opening of a named group is, in either of its spellings; 0 if there is none. */
  function Opening(s: string): (n: nat)
    ensures n <= |s|
  {
    if "(?P<" <= s then 4 else if "(?<" <= s then 3 else 0
  }

  /** Parses one atom; `None` is a syntax error or syntax that is not part of this model: other classes, a backslash
      before a letter, a digit or an angle bracket, and groups that set flags. */
  function ParseAtom(s: string): (r: Option<(Regex, string)>)
    ensures r.Some? ==> |r.value.1| < |s|
    decreases |s|, 0
  {
    if s == "" then None
    else if s[0] == '\\' then if |s| > 1 && Escapable(s[1]) then Some((Chr(s[1]), s[2..])) else None
    else if s[0] == '.' then Some((Dot, s[1..]))
    else if s[0] == '^' then Some((Start, s[1..]))
    else if s[0] == '$' then Some((End, s[1..]))
    else if s[0] == '[' then if "[^/]" <= s then Some((NotSlash, s[4..])) else None
    else if s[0] == '(' then
      if |s| > 1 && s[1] == '?' then ParseNamed(s)
      else
        var body := Parse(s[1..], true);
        if body.None? then None else Some((Paren(body.value.0), body.value.1))
    else if Meta(s[0]) then None
    else Some((Chr(s[0]), s[1..]))
  }

  function ParseNamed(s: string): (r: Option<(Regex, string)>)
    requires s != ""
    ensures r.Some? ==> |r.value.1| < |s|
    decreases |s| - 1, 2
  {
    var h := Opening(s);
    if h == 0 then None
    else
      var n := UpTo(s[h..], '>');
      if n == |s[h..]| || !ValidName(s[h..][..n]) then None
      else
        var body := Parse(s[h..][n + 1..], true);
        if body.None? then None else Some((Group(s[h..][..n], body.value.0), body.value.1))
  }

  function Under(quantifier: char, r: Regex): Regex {
    if quantifier == '*' then Star(r) else if quantifier == '+' then Plus(r) else Opt(r)
  }

  /** Skips the mark that makes a quantifier lazy; laziness changes no language. */
  function Unmarked(s: string): (r: string)
    ensures |r| <= |s|
  {
    if s != "" && s[0] == '?' then s[1..] else s
  }

  /** An atom under all the quantifiers that follow it. */
  function Quantified(r: Regex, s: string): (out: (Regex, string))
    ensures |out.1| <= |s|
    decreases |s|
  {
    if s == "" || !Quantifier(s[0]) then (r, s) else Quantified(Under(s[0], r), Unmarked(s[1..]))
  }

  /** Puts an item in front of what follows it, which may have alternatives. */
  function Before(item: Regex, r: Regex): Regex {
    if r.Or? then Or(Then(item, r.first), r.second) else Then(item, r)
  }

  /** Parses up to the parenthesis that closes the group, or to the end outside groups, and returns what is left. */
  function Parse(s: string, inGroup: bool): (r: Option<(Regex, string)>)
    ensures r.Some? ==> |r.value.1| <= |s|
    decreases |s|, 1
  {
    if s == "" then if inGroup then None else Some((Empty, ""))
    else if s[0] == ')' then if inGroup then Some((Empty, s[1..])) else None
    else if s[0] == '|' then
      var rest := Parse(s[1..], inGroup);
      if rest.None? then None else Some((Or(Empty, rest.value.0), rest.value.1))
    else
      var atom := ParseAtom(s);
      if atom.None? then None
      else
        var item := Quantified(atom.value.0, atom.value.1);
        var rest := Parse(item.1, inGroup);
        if rest.None? then None else Some((Before(item.0, rest.value.0), rest.value.1))
  }

  function Names(r: Regex): seq<string> {
    match r
    case Opt(body) => Names(body)
    case Star(body) => Names(body)
    case Plus(body) => Names(body)
    case Group(name, body) => [name] + Names(body)
    case Paren(body) => Names(body)
    case Then(a, b) => Names(a) + Names(b)
    case Or(a, b) => Names(a) + Names(b)
    case _ => []
  }

  predicate AllDifferent(names: seq<string>) {
    forall i, j :: 0 <= i < j < |names| ==> names[i] != names[j]
  }

  predicate ValidNames(names: seq<string>) {
    forall n :: n in names ==> ValidName(n)
  }

  /** `Regex::new`: group names may not repeat. */
  function ParseRegex(s: string): Option<Regex> {
    var r := Parse(s, false);
    if r.None? || !AllDifferent(Names(r.value.0)) then None else Some(r.value.0)
  }

  // ----- matching -----

  /** `r` matches all of `s`, where `first` and `last` tell whether `s` starts and ends the searched string. */
  predicate MatchesAt(r: Regex, s: string, first: bool, last: bool)
    decreases r, |s|, 0
  {
    match r
    case Empty => s == ""
    case Start => s == "" && first
    case End => s == "" && last
    case Chr(c) => s == [c]
    case Dot => |s| == 1 && s[0] != '\n'
    case NotSlash => |s| == 1 && s[0] != '/'
    case Opt(body) => s == "" || MatchesAt(body, s, first, last)
    case Star(body) => Repeats(body, s, first, last)
    case Plus(body) =>
      exists k :: 0 <= k <= |s| && MatchesAt(body, s[..k], first, last && k == |s|) && Repeats(body, s[k..], first && k == 0, last)
    case Group(_, body) => MatchesAt(body, s, first, last)
    case Paren(body) => MatchesAt(body, s, first, last)
    case Then(a, b) =>
      exists k :: 0 <= k <= |s| && MatchesAt(a, s[..k], first, last && k == |s|) && MatchesAt(b, s[k..], first && k == 0, last)
    case Or(a, b) => MatchesAt(a, s, first, last) || MatchesAt(b, s, first, last)
  }

  /** Any number of rounds; empty ones add nothing. */
  predicate Repeats(body: Regex, s: string, first: bool, last: bool)
    decreases body, |s|, 1
  {
    s == "" || exists k :: 1 <= k <= |s| && MatchesAt(body, s[..k], first, last && k == |s|) && Repeats(body, s[k..], false, last)
  }

  /** The expression matches somewhere in the string. */
  predicate IsMatch(r: Regex, s: string) {
    exists i, j :: 0 <= i <= j <= |s| && MatchesAt(r, s[i..j], i == 0, j == |s|)
  }

  // ----- captures -----

  /** `caps` is what the groups hold after one way to match all of `s`; a group under a quantifier holds what the last
      of its rounds gave it. */
  ghost predicate Binds(r: Regex, s: string, first: bool, last: bool, caps: map<string, string>)
    decreases r, |s|, 0
  {
    match r
    case Opt(body) => (s == "" && caps == map[]) || Binds(body, s, first, last, caps)
    case Star(body) => (s == "" && caps == map[]) || BindsRounds(body, s, first, last, caps)
    case Plus(body) => BindsRounds(body, s, first, last, caps)
    case Group(name, body) => name in caps && caps[name] == s && Binds(body, s, first, last, caps - {name})
    case Paren(body) => Binds(body, s, first, last, caps)
    case Then(a, b) =>
      exists k, x, y :: 0 <= k <= |s| && Binds(a, s[..k], first, last && k == |s|, x)
                        && Binds(b, s[k..], first && k == 0, last, y) && caps == x + y
    case Or(a, b) => Binds(a, s, first, last, caps) || Binds(b, s, first, last, caps)
    case _ => caps == map[] && MatchesAt(r, s, first, last)
  }

  /** At least one round, and later ones that take something. */
  ghost predicate BindsRounds(body: Regex, s: string, first: bool, last: bool, caps: map<string, string>)
    decreases body, |s|, 2
  {
    exists k, x, y :: 0 <= k <= |s| && Binds(body, s[..k], first, last && k == |s|, x)
                      && BindsMore(body, s[k..], first && k == 0, last, y) && caps == x + y
  }

  ghost predicate BindsMore(body: Regex, s: string, first: bool, last: bool, caps: map<string, string>)
    decreases body, |s|, 1
  {
    || (s == "" && caps == map[])
    || exists k, x, y :: 1 <= k <= |s| && Binds(body, s[..k], first, last && k == |s|, x)
                         && BindsMore(body, s[k..], false, last, y) && caps == x + y
  }

  /** A match somewhere in the string with these captures. */
  ghost predicate Captures(r: Regex, s: string, caps: map<string, string>) {
    exists i, j :: 0 <= i <= j <= |s| && Binds(r, s[i..j], i == 0, j == |s|, caps)
  }

  // ----- putting captures together and taking them apart -----

  lemma ThenJoin(a: Regex, b: Regex, s: string, first: bool, last: bool, k: nat, x: map<string, string>, y: map<string, string>)
    requires k <= |s| && Binds(a, s[..k], first, last && k == |s|, x) && Binds(b, s[k..], first && k == 0, last, y)
    ensures Binds(Then(a, b), s, first, last, x + y)
  {
  }

  lemma ThenParts(a: Regex, b: Regex, s: string, first: bool, last: bool, caps: map<string, string>)
    returns (k: nat, x: map<string, string>, y: map<string, string>)
    requires Binds(Then(a, b), s, first, last, caps)
    ensures k <= |s| && Binds(a, s[..k], first, last && k == |s|, x) && Binds(b, s[k..], first && k == 0, last, y) && caps == x + y
  {
    k, x, y :| 0 <= k <= |s| && Binds(a, s[..k], first, last && k == |s|, x)
               && Binds(b, s[k..], first && k == 0, last, y) && caps == x + y;
  }

  lemma RoundJoin(r: Regex, s: string, first: bool, last: bool, k: nat, x: map<string, string>, y: map<string, string>)
    requires k <= |s| && Binds(r, s[..k], first, last && k == |s|, x) && BindsMore(r, s[k..], first && k == 0, last, y)
    ensures BindsRounds(r, s, first, last, x + y)
  {
  }

  lemma RoundParts(r: Regex, s: string, first: bool, last: bool, caps: map<string, string>)
    returns (k: nat, x: map<string, string>, y: map<string, string>)
    requires BindsRounds(r, s, first, last, caps)
    ensures k <= |s| && Binds(r, s[..k], first, last && k == |s|, x) && BindsMore(r, s[k..], first && k == 0, last, y) && caps == x + y
  {
    k, x, y :| 0 <= k <= |s| && Binds(r, s[..k], first, last && k == |s|, x)
               && BindsMore(r, s[k..], first && k == 0, last, y) && caps == x + y;
  }

  lemma MoreJoin(r: Regex, s: string, first: bool, last: bool, k: nat, x: map<string, string>, y: map<string, string>)
    requires 1 <= k <= |s| && Binds(r, s[..k], first, last && k == |s|, x) && BindsMore(r, s[k..], false, last, y)
    ensures BindsMore(r, s, first, last, x + y)
  {
  }

  lemma MoreParts(r: Regex, s: string, first: bool, last: bool, caps: map<string, string>)
    returns (k: nat, x: map<string, string>, y: map<string, string>)
    requires s != "" && BindsMore(r, s, first, last, caps)
    ensures 1 <= k <= |s| && Binds(r, s[..k], first, last && k == |s|, x) && BindsMore(r, s[k..], false, last, y) && caps == x + y
  {
    k, x, y :| 1 <= k <= |s| && Binds(r, s[..k], first, last && k == |s|, x)
               && BindsMore(r, s[k..], false, last, y) && caps == x + y;
  }

  // ----- every match has captures -----

  lemma DifferentParts(front: seq<string>, rest: seq<string>)
    requires AllDifferent(front + rest)
    ensures AllDifferent(front) && AllDifferent(rest) && forall i :: 0 <= i < |front| ==> front[i] !in rest
  {
    var all := front + rest;
    forall i, j | 0 <= i < j < |front| ensures front[i] != front[j] {
      assert all[i] == front[i] && all[j] == front[j];
    }
    forall i, j | 0 <= i < j < |rest| ensures rest[i] != rest[j] {
      assert all[|front| + i] == rest[i] && all[|front| + j] == rest[j];
    }
    forall i, j | 0 <= i < |front| && 0 <= j < |rest| ensures front[i] != rest[j] {
      assert all[i] == front[i] && all[|front| + j] == rest[j];
    }
  }

  /** Whatever matches has captures, of groups of the expression. */
  lemma {:induction false} MatchCaptures(r: Regex, s: string, first: bool, last: bool) returns (caps: map<string, string>)
    requires MatchesAt(r, s, first, last) && AllDifferent(Names(r))
    ensures Binds(r, s, first, last, caps) && forall n :: n in caps ==> n in Names(r)
    decreases r, |s|, 0
  {
    caps := map[];
    match r
    case Opt(body) =>
      if s != "" { caps := MatchCaptures(body, s, first, last); }
    case Star(body) =>
      if s != "" {
        var k :| 1 <= k <= |s| && MatchesAt(body, s[..k], first, last && k == |s|) && Repeats(body, s[k..], false, last);
        caps := RoundCaptures(body, s, first, last, k);
      }
    case Plus(body) =>
      var k :| 0 <= k <= |s| && MatchesAt(body, s[..k], first, last && k == |s|) && Repeats(body, s[k..], first && k == 0, last);
      caps := RoundCaptures(body, s, first, last, k);
    case Group(name, body) =>
      DifferentParts([name], Names(body));
      assert [name][0] == name;
      var inner := MatchCaptures(body, s, first, last);
      caps := inner[name := s];
      assert caps - {name} == inner;
    case Paren(body) => caps := MatchCaptures(body, s, first, last);
    case Then(a, b) =>
      var k :| 0 <= k <= |s| && MatchesAt(a, s[..k], first, last && k == |s|) && MatchesAt(b, s[k..], first && k == 0, last);
      DifferentParts(Names(a), Names(b));
      var x := MatchCaptures(a, s[..k], first, last && k == |s|);
      var y := MatchCaptures(b, s[k..], first && k == 0, last);
      ThenJoin(a, b, s, first, last, k, x, y);
      caps := x + y;
    case Or(a, b) =>
      DifferentParts(Names(a), Names(b));
      if MatchesAt(a, s, first, last) {
        caps := MatchCaptures(a, s, first, last);
      } else {
        caps := MatchCaptures(b, s, first, last);
      }
    case _ =>
  }

  lemma {:induction false} RoundCaptures(body: Regex, s: string, first: bool, last: bool, k: nat) returns (caps: map<string, string>)
    requires k <= |s| && MatchesAt(body, s[..k], first, last && k == |s|) && Repeats(body, s[k..], first && k == 0, last)
    requires AllDifferent(Names(body))
    ensures BindsRounds(body, s, first, last, caps) && forall n :: n in caps ==> n in Names(body)
    decreases body, |s|, 2
  {
    var x := MatchCaptures(body, s[..k], first, last && k == |s|);
    var y := MoreCaptures(body, s[k..], first && k == 0, last);
    RoundJoin(body, s, first, last, k, x, y);
    caps := x + y;
  }

  lemma {:induction false} MoreCaptures(body: Regex, s: string, first: bool, last: bool) returns (caps: map<string, string>)
    requires Repeats(body, s, first, last) && AllDifferent(Names(body))
    ensures BindsMore(body, s, first, last, caps) && forall n :: n in caps ==> n in Names(body)
    decreases body, |s|, 1
  {
    caps := map[];
    if s != "" {
      var k :| 1 <= k <= |s| && MatchesAt(body, s[..k], first, last && k == |s|) && Repeats(body, s[k..], false, last);
      var x := MatchCaptures(body, s[..k], first, last && k == |s|);
      var y := MoreCaptures(body, s[k..], false, last);
      MoreJoin(body, s, first, last, k, x, y);
      caps := x + y;
    }
  }
}
