/** Text as Python handles it: decimal numbers and Unicode white space. */
module Text {

  predicate IsDigit(c: char) {
    '0' <= c <= '9'
  }

  function Digit(d: nat): (c: char)
    requires d < 10
    ensures IsDigit(c)
  {
    '0' + d as char
  }

  function DigitValue(c: char): (d: nat)
    requires IsDigit(c)
    ensures d < 10 && Digit(d) == c
  {
    (c - '0') as nat
  }

  /** The decimal text of `n` in front of `rest`. */
  function NatOnto(n: nat, rest: string): (r: string)
    ensures r != [] && IsDigit(r[0]) && (r[0] == '0' <==> n == 0)
    decreases n
  {
    if n < 10 then [Digit(n)] + rest else NatOnto(n / 10, [Digit(n % 10)] + rest)
  }

  function NatToString(n: nat): string {
    NatOnto(n, "")
  }

  /** Reads digits as long as there are any. */
  function ReadDigits(s: string, acc: nat): (r: (nat, string))
    ensures |r.1| <= |s|
    decreases |s|
  {
    if s != "" && IsDigit(s[0]) then ReadDigits(s[1..], 10 * acc + DigitValue(s[0])) else (acc, s)
  }

  lemma {:induction false} ReadsNat(n: nat, rest: string)
    ensures ReadDigits(NatOnto(n, rest), 0) == ReadDigits(rest, n)
    decreases n
  {
    var s := [Digit(n % 10)] + rest;
    assert s[1..] == rest;
    if n >= 10 {
      ReadsNat(n / 10, s);
    }
  }

  lemma {:induction false} OnlyDigits(n: nat, rest: string)
    ensures forall c | c in NatOnto(n, rest) :: IsDigit(c) || c in rest
    decreases n
  {
    if n >= 10 {
      OnlyDigits(n / 10, [Digit(n % 10)] + rest);
    }
  }

  lemma DecimalText()
    ensures NatToString(0) == "0" && NatToString(120) == "120" && NatToString(1987) == "1987"
  {
  }

  /** Different numbers have different texts. */
  lemma NatToStringInjective(m: nat, n: nat)
    requires NatToString(m) == NatToString(n)
    ensures m == n
  {
    ReadsNat(m, "");
    ReadsNat(n, "");
  }

  // ----- white space -------------------------------------------------------------

  /** The characters `str.strip` and `str.split` take for white space. */
  predicate IsSpace(c: char) {
    || '\t' <= c <= '\r'
    || '\U{1C}' <= c <= ' '
    || c == '\U{85}' || c == '\U{A0}' || c == '\U{1680}'
    || '\U{2000}' <= c <= '\U{200A}'
    || c == '\U{2028}' || c == '\U{2029}' || c == '\U{202F}' || c == '\U{205F}' || c == '\U{3000}'
  }

  function LStrip(s: string): (r: string)
    ensures |r| <= |s| && (r == "" || !IsSpace(r[0]))
  {
    if s != "" && IsSpace(s[0]) then LStrip(s[1..]) else s
  }

  function RStrip(s: string): (r: string)
    ensures |r| <= |s| && (r == "" || (!IsSpace(r[|r|-1]) && r[0] == s[0]))
  {
    if s != "" && IsSpace(s[|s|-1]) then RStrip(s[..|s|-1]) else s
  }

  function Strip(s: string): string {
    RStrip(LStrip(s))
  }

  lemma StripTrimmed(s: string)
    requires s == "" || (!IsSpace(s[0]) && !IsSpace(s[|s|-1]))
    ensures Strip(s) == s
  {
  }

  predicate AllSpace(s: string) {
    forall k | 0 <= k < |s| :: IsSpace(s[k])
  }

  lemma {:induction false} LStripDrops(s: string) returns (i: nat)
    ensures i <= |s| && LStrip(s) == s[i..] && AllSpace(s[..i])
  {
    if s != "" && IsSpace(s[0]) {
      i := LStripDrops(s[1..]);
      i := i + 1;
    } else {
      i := 0;
    }
  }

  lemma {:induction false} RStripDrops(s: string) returns (j: nat)
    ensures j <= |s| && RStrip(s) == s[..j] && AllSpace(s[j..])
  {
    if s != "" && IsSpace(s[|s|-1]) {
      j := RStripDrops(s[..|s|-1]);
    } else {
      j := |s|;
    }
  }

  /** Stripping cuts white space off both ends and nothing else. */
  lemma StripCuts(s: string) returns (i: nat, j: nat)
    ensures i <= j <= |s| && Strip(s) == s[i..j]
    ensures AllSpace(s[..i]) && AllSpace(s[j..])
    ensures i < j ==> !IsSpace(s[i]) && !IsSpace(s[j-1])
  {
    i := LStripDrops(s);
    var t := s[i..];
    var n := RStripDrops(t);
    j := i + n;
    assert t[..n] == s[i..j] && t[n..] == s[j..];
    if n > 0 {
      assert Strip(s)[0] == s[i] && Strip(s)[n-1] == s[j-1];
    }
  }

  /** Stripping twice is stripping once. */
  lemma StripTwice(s: string)
    ensures Strip(Strip(s)) == Strip(s)
  {
    StripTrimmed(Strip(s));
  }

  /** Joins texts with a separator. */
  function Join(parts: seq<string>, sep: string): string {
    if parts == [] then ""
    else if |parts| == 1 then parts[0]
    else parts[0] + sep + Join(parts[1..], sep)
  }
}
