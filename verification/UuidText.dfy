/** UUIDs as 32 nibbles, their hyphenated lower-case text, and the four forms the parser takes. */
module UuidText {
  import opened Wrappers

  type Nibble = n: nat | n < 16

  type Uuid = u: seq<Nibble> | |u| == 32 witness seq(32, _ => 0)

  function Nil(): Uuid {
    seq(32, _ => 0)
  }

  function HexChar(n: Nibble): char {
    "0123456789abcdef"[n]
  }

  predicate IsHex(c: char) {
    '0' <= c <= '9' || 'a' <= c <= 'f' || 'A' <= c <= 'F'
  }

  function HexValue(c: char): Nibble
    requires IsHex(c)
  {
    if '0' <= c <= '9' then c as int - '0' as int
    else if 'a' <= c <= 'f' then c as int - 'a' as int + 10
    else c as int - 'A' as int + 10
  }

  function Hex(ns: seq<Nibble>): (s: string)
    ensures |s| == |ns|
  {
    seq(|ns|, i requires 0 <= i < |ns| => HexChar(ns[i]))
  }

  predicate AllHex(s: string) {
    forall i :: 0 <= i < |s| ==> IsHex(s[i])
  }

  function Unhex(s: string): (ns: seq<Nibble>)
    requires AllHex(s)
    ensures |ns| == |s|
  {
    seq(|s|, i requires 0 <= i < |s| => HexValue(s[i]))
  }

  function Print(u: Uuid): (s: string)
    ensures |s| == 36
  {
    Hex(u[..8]) + "-" + Hex(u[8..12]) + "-" + Hex(u[12..16]) + "-" + Hex(u[16..20]) + "-" + Hex(u[20..])
  }

  function Digits(s: string): string
    requires |s| == 36
  {
    s[..8] + s[9..13] + s[14..18] + s[19..23] + s[24..]
  }

  function ParseHyphenated(s: string): Option<Uuid>
    requires |s| == 36
  {
    if s[8] == '-' && s[13] == '-' && s[18] == '-' && s[23] == '-' && AllHex(Digits(s)) then Some(Unhex(Digits(s)))
    else None
  }

  /** Plain, hyphenated, in braces, or as a URN. */
  function Parse(s: string): Option<Uuid> {
    if |s| == 32 then if AllHex(s) then Some(Unhex(s)) else None
    else if |s| == 36 then ParseHyphenated(s)
    else if |s| == 38 && s[0] == '{' && s[37] == '}' then ParseHyphenated(s[1..37])
    else if |s| == 45 && s[..9] == "urn:uuid:" then ParseHyphenated(s[9..])
    else None
  }

  lemma HexRoundTrip(ns: seq<Nibble>)
    ensures AllHex(Hex(ns)) && Unhex(Hex(ns)) == ns
  {
    forall i | 0 <= i < |ns| ensures IsHex(HexChar(ns[i])) && HexValue(HexChar(ns[i])) == ns[i] {
      NibbleRoundTrip(ns[i]);
    }
  }

  lemma NibbleRoundTrip(n: Nibble)
    ensures IsHex(HexChar(n)) && HexValue(HexChar(n)) == n
  {
    assert n == 0 || n == 1 || n == 2 || n == 3 || n == 4 || n == 5 || n == 6 || n == 7 || n == 8 || n == 9
           || n == 10 || n == 11 || n == 12 || n == 13 || n == 14 || n == 15;
  }

  lemma HexSlice(ns: seq<Nibble>, i: nat, j: nat)
    requires i <= j <= |ns|
    ensures Hex(ns[i..j]) == Hex(ns)[i..j]
  {
  }

  /** The five groups between the hyphens. */
  lemma Groups(a: string, b: string, c: string, d: string, e: string)
    requires |a| == 8 && |b| == |c| == |d| == 4 && |e| == 12
    ensures Digits(a + "-" + b + "-" + c + "-" + d + "-" + e) == a + b + c + d + e
  {
    var s := a + "-" + b + "-" + c + "-" + d + "-" + e;
    assert s[..8] == a;
    assert s[9..13] == b;
    assert s[14..18] == c;
    assert s[19..23] == d;
    assert s[24..] == e;
  }

  lemma DigitsOfPrint(u: Uuid)
    ensures Digits(Print(u)) == Hex(u)
  {
    Groups(Hex(u[..8]), Hex(u[8..12]), Hex(u[12..16]), Hex(u[16..20]), Hex(u[20..]));
    HexSlice(u, 0, 8);
    HexSlice(u, 8, 12);
    HexSlice(u, 12, 16);
    HexSlice(u, 16, 20);
    HexSlice(u, 20, 32);
    var h := Hex(u);
    assert h[..8] + h[8..12] + h[12..16] + h[16..20] + h[20..] == h;
  }

  /** Parsing takes back what printing gives. */
  lemma ParsePrint(u: Uuid)
    ensures Parse(Print(u)) == Some(u)
  {
    DigitsOfPrint(u);
    HexRoundTrip(u);
  }

  lemma PrintInjective(a: Uuid, b: Uuid)
    requires Print(a) == Print(b)
    ensures a == b
  {
    ParsePrint(a);
    ParsePrint(b);
  }

  lemma HexHasNo(ns: seq<Nibble>, c: char)
    requires !IsHex(c)
    ensures c !in Hex(ns)
  {
    HexRoundTrip(ns);
  }

  lemma PrintHasNoColon(u: Uuid)
    ensures ':' !in Print(u)
  {
    HexHasNo(u[..8], ':');
    HexHasNo(u[8..12], ':');
    HexHasNo(u[12..16], ':');
    HexHasNo(u[16..20], ':');
    HexHasNo(u[20..], ':');
  }

  // ---------------------------------------------------------------- all that is parsed

  /** Upper-case hexadecimal digits as the lower-case ones. */
  function LowerChar(c: char): char {
    if 'A' <= c <= 'F' then (c as int - 'A' as int + 'a' as int) as char else c
  }

  function Lower(s: string): (l: string)
    ensures |l| == |s|
  {
    seq(|s|, i requires 0 <= i < |s| => LowerChar(s[i]))
  }

  lemma LowerIsHex(c: char, n: Nibble)
    ensures LowerChar(c) == HexChar(n) <==> IsHex(c) && HexValue(c) == n
  {
    NibbleRoundTrip(n);
    if IsHex(c) {
      HexOf(c);
    } else {
      assert LowerChar(c) == c;
    }
  }

  lemma HexOf(c: char)
    requires IsHex(c)
    ensures HexChar(HexValue(c)) == LowerChar(c)
  {
    if '0' <= c <= '9' {
      DigitOf(c);
    } else {
      LetterOf(LowerChar(c));
    }
  }

  lemma DigitOf(c: char)
    requires '0' <= c <= '9'
    ensures "0123456789abcdef"[c as int - '0' as int] == c
  {
    assert c == '0' || c == '1' || c == '2' || c == '3' || c == '4' || c == '5' || c == '6' || c == '7' || c == '8'
           || c == '9';
  }

  lemma LetterOf(c: char)
    requires 'a' <= c <= 'f'
    ensures "0123456789abcdef"[c as int - 'a' as int + 10] == c
  {
    assert c == 'a' || c == 'b' || c == 'c' || c == 'd' || c == 'e' || c == 'f';
  }

  lemma UnhexIff(s: string, ns: seq<Nibble>)
    requires |s| == |ns|
    ensures Lower(s) == Hex(ns) <==> AllHex(s) && Unhex(s) == ns
  {
    if Lower(s) == Hex(ns) {
      forall i | 0 <= i < |s| ensures IsHex(s[i]) && HexValue(s[i]) == ns[i] {
        assert Lower(s)[i] == Hex(ns)[i];
        LowerIsHex(s[i], ns[i]);
      }
    }
    if AllHex(s) && Unhex(s) == ns {
      forall i | 0 <= i < |s| ensures Lower(s)[i] == Hex(ns)[i] {
        assert Unhex(s)[i] == ns[i];
        LowerIsHex(s[i], ns[i]);
      }
    }
  }

  predicate Hyphened(s: string)
    requires |s| == 36
  {
    s[8] == '-' && s[13] == '-' && s[18] == '-' && s[23] == '-'
  }

  lemma DigitsLower(s: string)
    requires |s| == 36
    ensures Digits(Lower(s)) == Lower(Digits(s)) && |Digits(s)| == 32
    ensures Hyphened(Lower(s)) <==> Hyphened(s)
  {
  }

  lemma SameDigits(a: string, b: string)
    requires |a| == |b| == 36 && Hyphened(a) && Hyphened(b) && Digits(a) == Digits(b)
    ensures a == b
  {
    var d, e := Digits(a), Digits(b);
    assert d[..8] == a[..8] && d[8..12] == a[9..13] && d[12..16] == a[14..18] && d[16..20] == a[19..23];
    assert d[20..] == a[24..] && e[20..] == b[24..];
    assert e[..8] == b[..8] && e[8..12] == b[9..13] && e[12..16] == b[14..18] && e[16..20] == b[19..23];
    assert a == a[..8] + "-" + a[9..13] + "-" + a[14..18] + "-" + a[19..23] + "-" + a[24..];
    assert b == b[..8] + "-" + b[9..13] + "-" + b[14..18] + "-" + b[19..23] + "-" + b[24..];
  }

  lemma ParseHyphenatedIff(s: string, u: Uuid)
    requires |s| == 36
    ensures (ParseHyphenated(s).Some? && ParseHyphenated(s).value == u) <==> Lower(s) == Print(u)
  {
    DigitsLower(s);
    DigitsOfPrint(u);
    assert Hyphened(Print(u));
    UnhexIff(Digits(s), u);
    if Hyphened(s) && Lower(Digits(s)) == Hex(u) {
      SameDigits(Lower(s), Print(u));
    }
  }

  /** The four texts of a UUID: plain, hyphenated, in braces, or as a URN; digits in either case, nothing else. */
  lemma ParsesIff(s: string, u: Uuid)
    ensures (Parse(s).Some? && Parse(s).value == u) <==>
            || Lower(s) == Hex(u)
            || Lower(s) == Print(u)
            || (|s| == 38 && s[0] == '{' && s[37] == '}' && Lower(s[1..37]) == Print(u))
            || (|s| == 45 && s[..9] == "urn:uuid:" && Lower(s[9..]) == Print(u))
  {
    if |s| == 32 {
      UnhexIff(s, u);
    } else if |s| == 36 {
      ParseHyphenatedIff(s, u);
    } else if |s| == 38 {
      ParseHyphenatedIff(s[1..37], u);
    } else if |s| == 45 {
      ParseHyphenatedIff(s[9..], u);
    }
  }
}
