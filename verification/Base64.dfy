/** The `btoa` and `atob` that every script gets (src/modules/mod.rs). Strings are sequences of UTF-16 code
    units; reading past the end gives NaN, which counts as zero in bit operations. */
module Base64 {
  import opened Resources
  import opened Strings

  type Code = c: nat | c < 0x1_0000

  type Text = seq<Code>

  /** `x | y` on non-negative numbers. */
  function BitOr(x: nat, y: nat): nat
    decreases x + y
  {
    if x == 0 then y
    else if y == 0 then x
    else 2 * BitOr(x / 2, y / 2) + (if x % 2 == 1 || y % 2 == 1 then 1 else 0)
  }

  function Pow2(k: nat): (p: nat)
    ensures p >= 1
  {
    if k == 0 then 1 else 2 * Pow2(k - 1)
  }

  /** Without overlapping bits, `|` is addition. */
  lemma {:induction false} OrAdds(q: nat, k: nat, y: nat)
    requires y < Pow2(k)
    ensures BitOr(q * Pow2(k), y) == q * Pow2(k) + y
    decreases k
  {
    if k > 0 {
      var half := q * Pow2(k - 1);
      Doubled(q, Pow2(k - 1));
      OrOfEven(half, y);
      OrAdds(q, k - 1, y / 2);
    }
  }

  lemma OrOfEven(half: nat, y: nat)
    ensures BitOr(2 * half, y) == 2 * BitOr(half, y / 2) + y % 2
  {
  }

  lemma Doubled(q: nat, p: nat)
    ensures q * (2 * p) == 2 * (q * p)
  {
  }

  function CodeAt(s: Text, i: nat): Option<Code> {
    if i < |s| then Some(s[i]) else None
  }

  /** NaN is zero in bit operations. */
  function Bits(c: Option<Code>): Code {
    if c.Some? then c.value else 0
  }

  /** The alphabet of section 4 of RFC 4648, with the padding character at 64. */
  function Sextet(i: nat): Code
    requires i <= 64
  {
    if i < 26 then 65 + i
    else if i < 52 then 97 + (i - 26)
    else if i < 62 then 48 + (i - 52)
    else if i == 62 then 43
    else if i == 63 then 47
    else 61
  }

  /** `chars.charAt(i)` as a string: empty past the end. */
  function CharAt(i: nat): (s: Text)
    ensures |s| <= 1
  {
    if i <= 64 then [Sextet(i)] else []
  }

  /** The character class `[A-Za-z0-9+/=]`. */
  predicate InAlphabet(code: Code) {
    65 <= code <= 90 || 97 <= code <= 122 || 48 <= code <= 57 || code == 43 || code == 47 || code == 61
  }

  /** `chars.indexOf(str.charAt(i))`: the empty string is found at 0. */
  function IndexOf(c: Option<Code>): (i: int)
    ensures i <= 64
  {
    match c
    case None => 0
    case Some(code) =>
      if 65 <= code <= 90 then code - 65
      else if 97 <= code <= 122 then code - 97 + 26
      else if 48 <= code <= 57 then code - 48 + 52
      else if code == 43 then 62
      else if code == 47 then 63
      else if code == 61 then 64
      else -1
  }

  /** Every digit is found again where it came from. */
  lemma DigitFound(i: nat)
    requires i <= 64
    ensures InAlphabet(Sextet(i)) && IndexOf(Some(Sextet(i))) == i && CharAt(i) == [Sextet(i)]
  {
  }

  // ----- encoding -----

  /** The four characters of one turn of `btoa`'s loop. */
  function EncodeGroup(a: Code, b: Option<Code>, c: Option<Code>): Text {
    FourChars(
      a / 4,
      BitOr((a % 4) * 16, Bits(b) / 16),
      if b.None? then 64 else BitOr((Bits(b) % 16) * 4, Bits(c) / 64),
      if b.None? || c.None? then 64 else Bits(c) % 64)
  }

  function FourChars(enc1: nat, enc2: nat, enc3: nat, enc4: nat): Text {
    CharAt(enc1) + CharAt(enc2) + CharAt(enc3) + CharAt(enc4)
  }

  function Rest(s: Text, i: nat): (r: Text)
    ensures |r| == if i <= |s| then |s| - i else 0
  {
    if i <= |s| then s[i..] else []
  }

  function Encode(s: Text): Text
    decreases |s|
  {
    if s == [] then [] else EncodeGroup(s[0], CodeAt(s, 1), CodeAt(s, 2)) + Encode(Rest(s, 3))
  }

  method Btoa(str: Text) returns (encoded: Text)
    ensures encoded == Encode(str)
  {
    encoded := [];
    var i := 0;
    assert Rest(str, 0) == str;
    while i < |str|
      invariant encoded + Encode(Rest(str, i)) == Encode(str)
    {
      ghost var rest := Rest(str, i);
      var a := str[i];
      i := i + 1;
      var b := CodeAt(str, i);
      i := i + 1;
      var c := CodeAt(str, i);
      i := i + 1;
      var four := EncodeThree(a, b, c);
      assert CodeAt(rest, 1) == b && CodeAt(rest, 2) == c && Rest(rest, 3) == Rest(str, i);
      Associate(encoded, four, Encode(Rest(str, i)));
      encoded := encoded + four;
    }
  }

  /** The four characters of three bytes, with padding for those that are missing. */
  method EncodeThree(a: Code, b: Option<Code>, c: Option<Code>) returns (four: Text)
    ensures four == EncodeGroup(a, b, c)
  {
    var enc1 := a / 4;
    var enc2 := BitOr((a % 4) * 16, Bits(b) / 16);
    var enc3 := BitOr((Bits(b) % 16) * 4, Bits(c) / 64);
    var enc4 := Bits(c) % 64;
    if b.None? {
      enc3, enc4 := 64, 64;
    } else if c.None? {
      enc4 := 64;
    }
    four := CharAt(enc1) + CharAt(enc2) + CharAt(enc3) + CharAt(enc4);
  }

  // ----- decoding -----

  /** What one turn of `atob`'s loop appends. */
  function DecodeGroup(enc1: nat, enc2: nat, enc3: nat, enc4: nat): Text {
    var a := BitOr(enc1 * 4, enc2 / 16) % 0x1_0000;
    var b := BitOr((enc2 % 16) * 16, enc3 / 4) % 0x1_0000;
    var c := BitOr((enc3 % 4) * 64, enc4) % 0x1_0000;
    [a] + (if enc3 != 64 then [b] else []) + (if enc4 != 64 then [c] else [])
  }

  /** `str.replace(/[^A-Za-z0-9\+\/\=]/g, '')`. */
  function Cleaned(s: Text): (r: Text)
    ensures forall c :: c in r ==> InAlphabet(c)
  {
    if s == [] then []
    else if InAlphabet(s[0]) then [s[0]] + Cleaned(s[1..])
    else Cleaned(s[1..])
  }

  predicate Clean(s: Text) {
    forall c :: c in s ==> InAlphabet(c)
  }

  function Index(s: Text, i: nat): nat
    requires Clean(s)
  {
    if i < |s| then assert s[i] in s; IndexOf(Some(s[i])) else 0
  }

  function Decode(s: Text): Text
    requires Clean(s)
    decreases |s|
  {
    if s == [] then []
    else DecodeGroup(Index(s, 0), Index(s, 1), Index(s, 2), Index(s, 3)) + Decode(Rest(s, 4))
  }

  method Atob(input: Text) returns (decoded: Text)
    ensures decoded == Decode(Cleaned(input))
  {
    decoded := [];
    var i := 0;
    var str := Cleaned(input);
    assert Rest(str, 0) == str;
    while i < |str|
      invariant decoded + Decode(Rest(str, i)) == Decode(str)
    {
      ghost var rest := Rest(str, i);
      var enc1 := Index(str, i);
      i := i + 1;
      var enc2 := Index(str, i);
      i := i + 1;
      var enc3 := Index(str, i);
      i := i + 1;
      var enc4 := Index(str, i);
      i := i + 1;
      assert Index(rest, 0) == enc1 && Index(rest, 1) == enc2 && Index(rest, 2) == enc3 && Index(rest, 3) == enc4;
      assert Rest(rest, 4) == Rest(str, i);
      var out := DecodeFour(enc1, enc2, enc3, enc4);
      Associate(decoded, out, Decode(Rest(str, i)));
      decoded := decoded + out;
    }
  }

  /** The three bytes of four digits, without those that padding stands for. */
  method DecodeFour(enc1: nat, enc2: nat, enc3: nat, enc4: nat) returns (out: Text)
    ensures out == DecodeGroup(enc1, enc2, enc3, enc4)
  {
    var a := BitOr(enc1 * 4, enc2 / 16);
    var b := BitOr((enc2 % 16) * 16, enc3 / 4);
    var c := BitOr((enc3 % 4) * 64, enc4);
    out := [a % 0x1_0000];
    if enc3 != 64 {
      out := out + [b % 0x1_0000];
    }
    if enc4 != 64 {
      out := out + [c % 0x1_0000];
    }
  }

  // ----- the string constant of both functions -----

  const CHARS := "ABCDEFGHIJKLMNOPQRSTUVWXYZ" + "abcdefghijklmnopqrstuvwxyz" + "0123456789" + "+/="

  /** `Sextet` spells the constant out. */
  lemma CharsAreTheAlphabet(i: nat)
    requires i <= 64
    ensures |CHARS| == 65 && CHARS[i] as int == Sextet(i)
  {
    var (upper, lower, digits) := ("ABCDEFGHIJKLMNOPQRSTUVWXYZ", "abcdefghijklmnopqrstuvwxyz", "0123456789");
    assert |upper| == 26 && |lower| == 26 && |digits| == 10;
    if i < 26 {
      Upper(i);
      assert CHARS[i] == upper[i];
    } else if i < 52 {
      Lower(i - 26);
      assert CHARS[i] == lower[i - 26];
    } else if i < 62 {
      Digit(i - 52);
      assert CHARS[i] == digits[i - 52];
    } else {
      assert CHARS[i] == "+/="[i - 62];
    }
  }

  lemma Upper(i: nat)
    requires i < 26
    ensures "ABCDEFGHIJKLMNOPQRSTUVWXYZ"[i] as int == 65 + i
  {
  }

  lemma Lower(i: nat)
    requires i < 26
    ensures "abcdefghijklmnopqrstuvwxyz"[i] as int == 97 + i
  {
  }

  lemma Digit(i: nat)
    requires i < 10
    ensures "0123456789"[i] as int == 48 + i
  {
  }

  /** And `IndexOf` finds a character where it stands in the constant, if it does. */
  lemma IndexInChars(code: Code, i: nat)
    requires i < |CHARS|
    ensures CHARS[i] as int == code <==> IndexOf(Some(code)) == i
  {
    CharsAreTheAlphabet(i);
  }

  // ----- groups -----

  predicate Bytes(s: Text) {
    forall c :: c in s ==> c < 256
  }

  /** The digits of a group: 24 bits cut into four sixes, big end first, as section 4 of RFC 4648 has it. */
  function Digits(a: nat, b: nat, c: nat): (nat, nat, nat, nat) {
    (a / 4, (a % 4) * 16 + b / 16, (b % 16) * 4 + c / 64, c % 64)
  }

  lemma DigitsAreTheBits(a: nat, b: nat, c: nat)
    requires a < 256 && b < 256 && c < 256
    ensures var d := Digits(a, b, c);
            && d.0 < 64 && d.1 < 64 && d.2 < 64 && d.3 < 64
            && ((d.0 * 64 + d.1) * 64 + d.2) * 64 + d.3 == (a * 256 + b) * 256 + c
  {
  }

  lemma OrAt4(x: nat, y: nat)
    requires y < 4
    ensures BitOr(x * 4, y) == x * 4 + y
  {
    assert Pow2(2) == 4;
    OrAdds(x, 2, y);
  }

  lemma OrAt16(x: nat, y: nat)
    requires y < 16
    ensures BitOr(x * 16, y) == x * 16 + y
  {
    assert Pow2(2) == 4 && Pow2(4) == 16;
    OrAdds(x, 4, y);
  }

  lemma OrAt64(x: nat, y: nat)
    requires y < 64
    ensures BitOr(x * 64, y) == x * 64 + y
  {
    assert Pow2(2) == 4 && Pow2(4) == 16 && Pow2(6) == 64;
    OrAdds(x, 6, y);
  }

  /** A group of bytes is written as its digits, with padding for what is missing. The first character may be one
      of the four after the bytes: its first digit is then 64, the padding character. */
  lemma GroupDigits(a: Code, b: Option<Code>, c: Option<Code>)
    requires a < 260 && Bits(b) < 256 && Bits(c) < 256 && (b.None? ==> c.None?)
    ensures var d := Digits(a, Bits(b), Bits(c));
            EncodeGroup(a, b, c) == FourChars(d.0, d.1, if b.None? then 64 else d.2, if c.None? then 64 else d.3)
  {
    SecondDigit(a, Bits(b));
    ThirdDigit(Bits(b), Bits(c));
  }

  lemma SecondDigit(a: nat, b: nat)
    requires b < 256
    ensures BitOr((a % 4) * 16, b / 16) == (a % 4) * 16 + b / 16
  {
    OrAt16(a % 4, b / 16);
  }

  lemma ThirdDigit(b: nat, c: nat)
    requires c < 256
    ensures BitOr((b % 16) * 4, c / 64) == (b % 16) * 4 + c / 64
  {
    OrAt4(b % 16, c / 64);
  }

  lemma DigitsAreSmall(a: nat, b: nat, c: nat)
    requires a < 260 && b < 256 && c < 256
    ensures var d := Digits(a, b, c); d.0 <= 64 && (a < 256 ==> d.0 < 64) && d.1 < 64 && d.2 < 64 && d.3 < 64
  {
  }

  /** The four characters of a group are digits, or padding for what is missing. */
  lemma GroupIndices(a: Code, b: Option<Code>, c: Option<Code>)
    requires a < 260 && Bits(b) < 256 && Bits(c) < 256 && (b.None? ==> c.None?)
    ensures var g, d := EncodeGroup(a, b, c), Digits(a, Bits(b), Bits(c));
            && |g| == 4 && Clean(g)
            && IndexOf(Some(g[0])) == d.0 && IndexOf(Some(g[1])) == d.1
            && IndexOf(Some(g[2])) == (if b.None? then 64 else d.2)
            && IndexOf(Some(g[3])) == (if c.None? then 64 else d.3)
    ensures var g, d := EncodeGroup(a, b, c), Digits(a, Bits(b), Bits(c));
            && g == [Sextet(d.0), Sextet(d.1), Sextet(if b.None? then 64 else d.2), Sextet(if c.None? then 64 else d.3)]
            && d.0 <= 64 && (a < 256 ==> d.0 < 64) && d.1 < 64 && d.2 < 64 && d.3 < 64
  {
    var d := Digits(a, Bits(b), Bits(c));
    DigitsAreSmall(a, Bits(b), Bits(c));
    GroupDigits(a, b, c);
    FourDigits(EncodeGroup(a, b, c), d.0, d.1, if b.None? then 64 else d.2, if c.None? then 64 else d.3);
  }

  lemma FourDigits(g: Text, w: nat, x: nat, y: nat, z: nat)
    requires w <= 64 && x <= 64 && y <= 64 && z <= 64
    requires g == FourChars(w, x, y, z)
    ensures g == [Sextet(w), Sextet(x), Sextet(y), Sextet(z)] && Clean(g)
    ensures IndexOf(Some(g[0])) == w && IndexOf(Some(g[1])) == x && IndexOf(Some(g[2])) == y && IndexOf(Some(g[3])) == z
  {
    DigitFound(w);
    DigitFound(x);
    DigitFound(y);
    DigitFound(z);
  }

  /** Decoding the digits gives the bytes back. */
  lemma GroupBack(a: Code, b: Option<Code>, c: Option<Code>)
    requires a < 260 && Bits(b) < 256 && Bits(c) < 256 && (b.None? ==> c.None?)
    ensures var d := Digits(a, Bits(b), Bits(c));
            DecodeGroup(d.0, d.1, if b.None? then 64 else d.2, if c.None? then 64 else d.3)
            == [a] + (if b.Some? then [b.value] else []) + (if c.Some? then [c.value] else [])
  {
    var d := Digits(a, Bits(b), Bits(c));
    DigitsAreSmall(a, Bits(b), Bits(c));
    ByteA(a, Bits(b), Bits(c));
    if b.Some? { ByteB(a, Bits(b), Bits(c)); }
    if c.Some? { ByteC(a, Bits(b), Bits(c)); }
    GroupBytes(d.0, d.1, if b.None? then 64 else d.2, if c.None? then 64 else d.3, a, Bits(b), Bits(c));
  }

  lemma GroupBytes(w: nat, x: nat, y: nat, z: nat, a: nat, b: nat, c: nat)
    requires a <= 260 && b < 256 && c < 256
    requires BitOr(w * 4, x / 16) == a
    requires y != 64 ==> BitOr((x % 16) * 16, y / 4) == b
    requires z != 64 ==> BitOr((y % 4) * 64, z) == c
    ensures DecodeGroup(w, x, y, z) == [a] + (if y != 64 then [b] else []) + (if z != 64 then [c] else [])
  {
  }

  lemma ByteA(a: nat, b: nat, c: nat)
    requires a < 260 && b < 256 && c < 256
    ensures var d := Digits(a, b, c); BitOr(d.0 * 4, d.1 / 16) == a
  {
    OrAt4(a / 4, ((a % 4) * 16 + b / 16) / 16);
  }

  lemma ByteB(a: nat, b: nat, c: nat)
    requires a < 260 && b < 256 && c < 256
    ensures var d := Digits(a, b, c); BitOr((d.1 % 16) * 16, d.2 / 4) == b
  {
    var d := Digits(a, b, c);
    assert d.1 % 16 == b / 16 && d.2 / 4 == b % 16;
    OrAt16(b / 16, b % 16);
  }

  lemma ByteC(a: nat, b: nat, c: nat)
    requires a < 260 && b < 256 && c < 256
    ensures var d := Digits(a, b, c); BitOr((d.2 % 4) * 64, d.3) == c
  {
    var d := Digits(a, b, c);
    assert d.2 % 4 == c / 64 && d.3 == c % 64;
    OrAt64(c / 64, c % 64);
  }

  // ----- whole strings -----

  /** The first group of a non-empty string. */
  lemma HeadGroup(s: Text)
    requires s != [] && Bytes(s)
    ensures s[0] < 256 && Bits(CodeAt(s, 1)) < 256 && Bits(CodeAt(s, 2)) < 256
    ensures CodeAt(s, 1).None? ==> CodeAt(s, 2).None?
    ensures Bytes(Rest(s, 3)) && |Rest(s, 3)| < |s|
    ensures s == [s[0]] + (if |s| > 1 then [s[1]] else []) + (if |s| > 2 then [s[2]] else []) + Rest(s, 3)
  {
    assert forall i :: 0 <= i < |s| ==> s[i] in s;
  }

  /** Encoding splits off the first group. */
  lemma HeadEncoded(s: Text) returns (g: Text, t: Text)
    requires s != [] && Bytes(s)
    ensures g == EncodeGroup(s[0], CodeAt(s, 1), CodeAt(s, 2)) && t == Encode(Rest(s, 3)) && Encode(s) == g + t
    ensures |g| == 4 && Clean(g) && Bytes(Rest(s, 3))
  {
    HeadGroup(s);
    GroupIndices(s[0], CodeAt(s, 1), CodeAt(s, 2));
    g, t := EncodeGroup(s[0], CodeAt(s, 1), CodeAt(s, 2)), Encode(Rest(s, 3));
  }

  lemma Thirds(n: nat, m: nat)
    requires n > 0 && m == if 3 <= n then n - 3 else 0
    ensures 4 * ((n + 2) / 3) == 4 + 4 * ((m + 2) / 3)
  {
  }

  /** Four characters for every three bytes or part of three, all of the alphabet. */
  lemma {:induction false} EncodedLength(s: Text)
    requires Bytes(s)
    ensures |Encode(s)| == 4 * ((|s| + 2) / 3) && Clean(Encode(s))
    decreases |s|
  {
    if s != [] {
      var g, t := HeadEncoded(s);
      EncodedLength(Rest(s, 3));
      Thirds(|s|, |Rest(s, 3)|);
      Concatenated(g, t);
    }
  }

  lemma Concatenated(g: Text, t: Text)
    requires Clean(g) && Clean(t)
    ensures Clean(g + t)
  {
  }

  lemma {:induction false} CleanedClean(s: Text)
    requires Clean(s)
    ensures Cleaned(s) == s
    decreases |s|
  {
    if s != [] {
      assert s[0] in s && forall c :: c in s[1..] ==> c in s;
      CleanedClean(s[1..]);
    }
  }

  /** How much padding a string of this length needs. */
  function Pads(n: nat): nat {
    if n % 3 == 1 then 2 else if n % 3 == 2 then 1 else 0
  }

  /** The padding of section 4 of RFC 4648: two characters after a single last byte, one after two, none otherwise,
      and only at the end. */
  lemma {:induction false} Padding(s: Text, i: nat)
    requires Bytes(s) && i < |Encode(s)|
    ensures Encode(s)[i] == Sextet(64) <==> i >= |Encode(s)| - Pads(|s|)
    decreases |s|
  {
    if s != [] {
      var g, t := HeadEncoded(s);
      EncodedLength(Rest(s, 3));
      if i >= 4 {
        Padding(Rest(s, 3), i - 4);
      } else {
        HeadPadding(s, g, i);
      }
      PadsLater(|s|, |t|);
    }
  }

  lemma PadsLater(n: nat, t: nat)
    requires n > 0 && t == 4 * (((if 3 <= n then n - 3 else 0) + 2) / 3)
    ensures n >= 3 ==> Pads(n) == Pads(n - 3)
    ensures t == 0 <==> n <= 3
    ensures t > 0 ==> t >= 4
  {
  }

  lemma HeadPadding(s: Text, g: Text, i: nat)
    requires s != [] && Bytes(s) && g == EncodeGroup(s[0], CodeAt(s, 1), CodeAt(s, 2)) && i < 4
    ensures |g| == 4 && (g[i] == Sextet(64) <==> |s| <= 3 && i >= 4 - Pads(|s|))
  {
    HeadGroup(s);
    var b, c := CodeAt(s, 1), CodeAt(s, 2);
    GroupIndices(s[0], b, c);
    var d := Digits(s[0], Bits(b), Bits(c));
    GroupPadding(g, d.0, d.1, if b.None? then 64 else d.2, if c.None? then 64 else d.3, |s|, i);
  }

  lemma GroupPadding(g: Text, w: nat, x: nat, y: nat, z: nat, n: nat, i: nat)
    requires n > 0 && i < 4 && w < 64 && x < 64 && y <= 64 && z <= 64
    requires (y == 64 <==> n == 1) && (z == 64 <==> n <= 2)
    requires g == [Sextet(w), Sextet(x), Sextet(y), Sextet(z)]
    ensures g[i] == Sextet(64) <==> n <= 3 && i >= 4 - Pads(n)
  {
  }

  lemma SplitDecoded(g: Text, t: Text)
    requires |g| == 4 && Clean(g) && Clean(t) && Clean(g + t)
    ensures Index(g, 0) >= 0 && Index(g, 1) >= 0 && Index(g, 2) >= 0 && Index(g, 3) >= 0
    ensures Decode(g + t) == DecodeGroup(Index(g, 0), Index(g, 1), Index(g, 2), Index(g, 3)) + Decode(t)
  {
    var all := g + t;
    assert all[0] == g[0] && all[1] == g[1] && all[2] == g[2] && all[3] == g[3];
    assert Rest(all, 4) == t;
  }

  // ----- which strings come back -----

  /** Byte-valued characters, and at the start of a group the four that follow them: their first digit, 64, is
      written as a padding character and read back as 64. */
  predicate Returns(s: Text) {
    forall i :: 0 <= i < |s| ==> s[i] < 256 || (i % 3 == 0 && s[i] < 260)
  }

  lemma {:induction false} OrBelow(x: nat, y: nat, k: nat)
    requires x < Pow2(k) && y < Pow2(k)
    ensures BitOr(x, y) < Pow2(k)
    decreases k
  {
    if x > 0 && y > 0 {
      OrBelow(x / 2, y / 2, k - 1);
    }
  }

  lemma {:induction false} OrAtMost(x: nat, y: nat)
    ensures BitOr(x, y) <= x + y
    decreases x + y
  {
    if x > 0 && y > 0 {
      OrAtMost(x / 2, y / 2);
    }
  }

  lemma CharAtClean(i: nat)
    ensures Clean(CharAt(i))
  {
    if i <= 64 {
      DigitFound(i);
    }
  }

  lemma GroupClean(a: Code, b: Option<Code>, c: Option<Code>)
    ensures Clean(EncodeGroup(a, b, c))
  {
    CharAtClean(a / 4);
    CharAtClean(BitOr((a % 4) * 16, Bits(b) / 16));
    CharAtClean(if b.None? then 64 else BitOr((Bits(b) % 16) * 4, Bits(c) / 64));
    CharAtClean(if b.None? || c.None? then 64 else Bits(c) % 64);
  }

  /** Whatever is encoded, `atob` has nothing to clean. */
  lemma {:induction false} EncodedClean(s: Text)
    ensures Clean(Encode(s))
    decreases |s|
  {
    if s != [] {
      GroupClean(s[0], CodeAt(s, 1), CodeAt(s, 2));
      EncodedClean(Rest(s, 3));
      Concatenated(EncodeGroup(s[0], CodeAt(s, 1), CodeAt(s, 2)), Encode(Rest(s, 3)));
    }
  }

  /** What a group of digits decodes to is at most 260, and less than 256 after the first character. */
  lemma DecodedGroupSmall(w: nat, x: nat, y: nat, z: nat)
    requires w <= 64 && x <= 64 && y <= 64 && z <= 64
    ensures var d := DecodeGroup(w, x, y, z);
            && d[0] <= 260 && (forall i :: 1 <= i < |d| ==> d[i] < 256)
            && |d| == 1 + (if y != 64 then 1 else 0) + (if z != 64 then 1 else 0)
  {
    var a := FirstByteSmall(w, x);
    var b := SecondByteSmall(x, y);
    var c := ThirdByteSmall(y, z);
    GroupBytes(w, x, y, z, a, b, c);
  }

  lemma FirstByteSmall(w: nat, x: nat) returns (a: nat)
    requires w <= 64 && x <= 64
    ensures a == BitOr(w * 4, x / 16) <= 260
  {
    a := BitOr(w * 4, x / 16);
    OrAtMost(w * 4, x / 16);
  }

  lemma SecondByteSmall(x: nat, y: nat) returns (b: nat)
    requires y <= 64
    ensures b < 256 && (y != 64 ==> b == BitOr((x % 16) * 16, y / 4))
  {
    b := 0;
    if y != 64 {
      b := BitOr((x % 16) * 16, y / 4);
      OrAtMost((x % 16) * 16, y / 4);
    }
  }

  lemma ThirdByteSmall(y: nat, z: nat) returns (c: nat)
    requires z <= 64
    ensures c < 256 && (z != 64 ==> c == BitOr((y % 4) * 64, z))
  {
    c := 0;
    if z != 64 {
      c := BitOr((y % 4) * 64, z);
      OrAtMost((y % 4) * 64, z);
    }
  }

  lemma IndexSmall(t: Text, i: nat)
    requires Clean(t)
    ensures 0 <= Index(t, i) <= 64
  {
    if i < |t| {
      assert t[i] in t;
    }
  }

  lemma {:induction false} DecodedSmall(t: Text)
    requires Clean(t)
    ensures forall i :: 0 <= i < |Decode(t)| ==> Decode(t)[i] <= 260
    decreases |t|
  {
    if t != [] {
      IndexSmall(t, 0);
      IndexSmall(t, 1);
      IndexSmall(t, 2);
      IndexSmall(t, 3);
      DecodedGroupSmall(Index(t, 0), Index(t, 1), Index(t, 2), Index(t, 3));
      RestClean(t, 4);
      DecodedSmall(Rest(t, 4));
    }
  }

  lemma RestClean(t: Text, n: nat)
    requires Clean(t)
    ensures Clean(Rest(t, n))
  {
  }

  /** A character above 260 never comes back. */
  lemma WideCharactersAreLost(s: Text, i: nat)
    requires i < |s| && s[i] > 260
    ensures Clean(Encode(s)) && Decode(Encode(s)) != s
  {
    EncodedClean(s);
    DecodedSmall(Encode(s));
  }

  /** A group that starts with 260 writes its first digit, 65, as nothing, and the rest moves up. */
  lemma StartLost(s: Text)
    requires s != [] && s[0] == 260 && forall c :: c in s ==> c <= 260
    ensures Clean(Encode(s)) && Decode(Encode(s)) != s
  {
    EncodedClean(s);
    var t, b := Encode(s), CodeAt(s, 1);
    assert |s| > 1 ==> s[1] in s;
    var second := Bits(b) / 16;
    assert second <= 16 && BitOr((s[0] % 4) * 16, second) == second;
    DigitFound(second);
    assert CharAt(s[0] / 4) == [];
    assert EncodeGroup(s[0], b, CodeAt(s, 2))[0] == Sextet(second);
    assert t[0] == Sextet(second);
    FirstSmall(t, second);
  }

  lemma FirstSmall(t: Text, w: nat)
    requires t != [] && Clean(t) && t[0] in t && IndexOf(Some(t[0])) == w <= 16
    ensures Decode(t) != [] && Decode(t)[0] != 260
  {
    IndexSmall(t, 1);
    DecodedFirst(t);
    SmallCode(w, Index(t, 1));
  }

  lemma SmallCode(w: nat, x: nat)
    requires w <= 16 && x <= 64
    ensures BitOr(w * 4, x / 16) % 0x1_0000 < 260
  {
    OrAtMost(w * 4, x / 16);
  }

  lemma DecodedFirst(t: Text)
    requires t != [] && Clean(t)
    ensures Decode(t) != [] && Decode(t)[0] == BitOr(Index(t, 0) * 4, Index(t, 1) / 16) % 0x1_0000
  {
  }

  /** The four characters of a group of small characters, the first below 260. */
  lemma AlignedGroup(a: Code, b: Option<Code>, c: Option<Code>)
    requires a < 260 && Bits(b) <= 260 && Bits(c) <= 260 && (b.None? ==> c.None?)
    ensures var g := EncodeGroup(a, b, c);
            && |g| == 4 && Clean(g)
            && Index(g, 0) <= 64 && Index(g, 1) < 64
            && (if b.None? then Index(g, 2) == 64 else Index(g, 2) < 64)
            && (if c.None? then Index(g, 3) == 64 else Index(g, 3) < 64)
  {
    var x, y := BitOr((a % 4) * 16, Bits(b) / 16), BitOr((Bits(b) % 16) * 4, Bits(c) / 64);
    PowersOfTwo();
    OrBelow((a % 4) * 16, Bits(b) / 16, 6);
    OrBelow((Bits(b) % 16) * 4, Bits(c) / 64, 6);
    FourDigits(EncodeGroup(a, b, c), a / 4, x, if b.None? then 64 else y, if b.None? || c.None? then 64 else Bits(c) % 64);
  }

  lemma PowersOfTwo()
    ensures Pow2(6) == 64
  {
    assert Pow2(2) == 4 && Pow2(4) == 16;
  }

  /** The characters of the first group. */
  function Head(s: Text): Text {
    if |s| <= 3 then s else s[..3]
  }

  function HeadDecoded(s: Text): Text
    requires s != [] && Clean(EncodeGroup(s[0], CodeAt(s, 1), CodeAt(s, 2)))
  {
    var g := EncodeGroup(s[0], CodeAt(s, 1), CodeAt(s, 2));
    IndexSmall(g, 0);
    IndexSmall(g, 1);
    IndexSmall(g, 2);
    IndexSmall(g, 3);
    DecodeGroup(Index(g, 0), Index(g, 1), Index(g, 2), Index(g, 3))
  }

  /** The first group of small characters comes back exactly when only its first one may pass the bytes. */
  lemma HeadReturns(s: Text)
    requires s != [] && s[0] < 260 && forall c :: c in s ==> c <= 260
    ensures Clean(EncodeGroup(s[0], CodeAt(s, 1), CodeAt(s, 2)))
    ensures |HeadDecoded(s)| == |Head(s)|
    ensures HeadDecoded(s) == Head(s) <==> (|s| > 1 ==> s[1] < 256) && (|s| > 2 ==> s[2] < 256)
  {
    var a, b, c := s[0], CodeAt(s, 1), CodeAt(s, 2);
    assert (|s| > 1 ==> s[1] in s) && (|s| > 2 ==> s[2] in s);
    AlignedGroup(a, b, c);
    var g := EncodeGroup(a, b, c);
    DecodedGroupSmall(Index(g, 0), Index(g, 1), Index(g, 2), Index(g, 3));
    if Bits(b) < 256 && Bits(c) < 256 {
      GroupIndices(a, b, c);
      GroupBack(a, b, c);
      assert Head(s) == [a] + (if b.Some? then [b.value] else []) + (if c.Some? then [c.value] else []);
    }
  }

  /** A string without characters above 260 comes back exactly when it `Returns`, group by group. */
  lemma {:induction false} SmallReturns(s: Text)
    requires forall c :: c in s ==> c <= 260
    ensures Clean(Encode(s))
    ensures Decode(Encode(s)) == s <==> Returns(s)
    decreases |s|
  {
    EncodedClean(s);
    if s != [] {
      if s[0] == 260 {
        StartLost(s);
      } else {
        assert s[0] in s && forall c :: c in Rest(s, 3) ==> c in s;
        SmallReturns(Rest(s, 3));
        HeadReturns(s);
        var g, t := EncodeGroup(s[0], CodeAt(s, 1), CodeAt(s, 2)), Encode(Rest(s, 3));
        AlignedHead(s);
        SplitDecoded(g, t);
        Parts(s, HeadDecoded(s), Decode(t));
        ReturnsByGroup(s);
      }
    }
  }

  lemma AlignedHead(s: Text)
    requires s != [] && s[0] < 260 && forall c :: c in s ==> c <= 260
    ensures |EncodeGroup(s[0], CodeAt(s, 1), CodeAt(s, 2))| == 4
  {
    assert (|s| > 1 ==> s[1] in s) && (|s| > 2 ==> s[2] in s);
    AlignedGroup(s[0], CodeAt(s, 1), CodeAt(s, 2));
  }

  lemma Parts(s: Text, front: Text, back: Text)
    requires s != [] && |front| == |Head(s)|
    ensures front + back == s <==> front == Head(s) && back == Rest(s, 3)
  {
    assert s == Head(s) + Rest(s, 3);
    if front + back == s {
      assert front == s[..|front|] && back == s[|front|..];
    }
  }

  lemma ReturnsByGroup(s: Text)
    requires s != [] && s[0] < 260
    ensures Returns(s) <==> (|s| > 1 ==> s[1] < 256) && (|s| > 2 ==> s[2] < 256) && Returns(Rest(s, 3))
  {
    var rest := Rest(s, 3);
    if Returns(s) {
      forall i | 0 <= i < |rest| ensures rest[i] < 256 || (i % 3 == 0 && rest[i] < 260) {
        assert rest[i] == s[i + 3] && (i + 3) % 3 == i % 3;
      }
    }
    if (|s| > 1 ==> s[1] < 256) && (|s| > 2 ==> s[2] < 256) && Returns(rest) {
      forall i | 0 <= i < |s| ensures s[i] < 256 || (i % 3 == 0 && s[i] < 260) {
        if i >= 3 {
          assert rest[i - 3] == s[i] && (i - 3) % 3 == i % 3;
        }
      }
    }
  }

  /** `atob(btoa(s))` is `s` if and only if every character of `s` is byte-valued, or starts a group and is below
      260. */
  lemma RoundTripIff(s: Text)
    ensures Decode(Cleaned(Encode(s))) == s <==> Returns(s)
  {
    EncodedClean(s);
    CleanedClean(Encode(s));
    if i :| 0 <= i < |s| && s[i] > 260 {
      WideCharactersAreLost(s, i);
    } else {
      SmallReturns(s);
    }
  }

  /** In particular every string of byte-valued characters comes back. */
  lemma RoundTrip(s: Text)
    requires Bytes(s)
    ensures Decode(Cleaned(Encode(s))) == s
  {
    assert forall i :: 0 <= i < |s| ==> s[i] in s;
    RoundTripIff(s);
  }

  // ----- what is cleaned away -----

  lemma {:induction false} CleanedJoin(a: Text, b: Text)
    ensures Cleaned(a + b) == Cleaned(a) + Cleaned(b)
    decreases |a|
  {
    if a == [] {
      assert a + b == b;
    } else {
      assert (a + b)[1..] == a[1..] + b;
      CleanedJoin(a[1..], b);
    }
  }

  predicate InConstant(c: Code) {
    exists i :: 0 <= i < |CHARS| && CHARS[i] as int == c
  }

  /** The characters kept are those of the constant. */
  lemma AlphabetIff(c: Code)
    ensures InAlphabet(c) <==> InConstant(c)
  {
    var i := IndexOf(Some(c));
    CharsAreTheAlphabet(0);
    if InAlphabet(c) {
      IndexInChars(c, i);
      assert CHARS[i] as int == c;
    }
    if j :| 0 <= j < |CHARS| && CHARS[j] as int == c {
      IndexInChars(c, j);
    }
  }

  /** Characters outside the constant change nothing wherever they stand, and those of the constant stay in their
      places. */
  lemma OthersAreIgnored(a: Text, c: Code, b: Text)
    ensures Cleaned(a + [c] + b) == if InConstant(c) then Cleaned(a) + [c] + Cleaned(b) else Cleaned(a + b)
  {
    AlphabetIff(c);
    CleanedJoin(a + [c], b);
    CleanedJoin(a, [c]);
    CleanedJoin(a, b);
    assert [c][1..] == [];
    assert Cleaned([c]) == if InAlphabet(c) then [c] else [];
  }
}
