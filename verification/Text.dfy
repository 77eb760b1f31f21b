/** Byte strings as Go handles them: NUL-separated records, decimal and
    hexadecimal renderings, and the bytewise order of `<` on strings.  Every
    `char` below stands for one byte. */
module Text {
  const NUL: char := 0 as char

  predicate NulFree(s: string) {
    NUL !in s
  }

  /** Each field followed by one NUL byte. */
  function Terminated(fields: seq<string>): string {
    if fields == [] then "" else fields[0] + [NUL] + Terminated(fields[1..])
  }

  /** `strings.Join(fields, "\x00")`. */
  function Joined(fields: seq<string>): string {
    if fields == [] then ""
    else if |fields| == 1 then fields[0]
    else fields[0] + [NUL] + Joined(fields[1..])
  }

  // The first NUL marks the end of the first field, so a common text forces
  // the same first field and the same rest.
  lemma SplitAtNul(a: string, x: string, b: string, y: string)
    requires NulFree(a) && NulFree(b)
    requires a + [NUL] + x == b + [NUL] + y
    ensures a == b && x == y
  {
    var l, r := a + [NUL] + x, b + [NUL] + y;
    assert l[|a|] == NUL && r[|b|] == NUL;
    assert forall i :: 0 <= i < |a| ==> l[i] in a;
    assert forall i :: 0 <= i < |b| ==> r[i] in b;
    assert |a| == |b|;
    assert l[..|a|] == a && r[..|b|] == b;
    assert l[|a| + 1..] == x && r[|b| + 1..] == y;
  }

  lemma {:induction false} TerminatedInjective(a: seq<string>, b: seq<string>)
    requires forall f <- a :: NulFree(f)
    requires forall f <- b :: NulFree(f)
    requires Terminated(a) == Terminated(b)
    ensures a == b
  {
    if a != [] && b != [] {
      SplitAtNul(a[0], Terminated(a[1..]), b[0], Terminated(b[1..]));
      TerminatedInjective(a[1..], b[1..]);
      assert a == [a[0]] + a[1..] && b == [b[0]] + b[1..];
    }
  }

  lemma {:induction false} TerminatedIsJoined(fields: seq<string>)
    requires fields != []
    ensures Terminated(fields) == Joined(fields) + [NUL]
  {
    if |fields| > 1 {
      TerminatedIsJoined(fields[1..]);
    }
  }

  lemma JoinedInjective(a: seq<string>, b: seq<string>)
    requires a != [] && b != []
    requires forall f <- a :: NulFree(f)
    requires forall f <- b :: NulFree(f)
    requires Joined(a) == Joined(b)
    ensures a == b
  {
    TerminatedIsJoined(a);
    TerminatedIsJoined(b);
    TerminatedInjective(a, b);
  }

  lemma {:induction false} TerminatedAppend(a: seq<string>, b: seq<string>)
    ensures Terminated(a + b) == Terminated(a) + Terminated(b)
  {
    if a == [] {
      assert a + b == b;
    } else {
      assert (a + b)[1..] == a[1..] + b;
      TerminatedAppend(a[1..], b);
    }
  }

  // Decimal, as strconv.FormatInt(n, 10) writes it.

  function Digit(d: int): (c: char)
    requires 0 <= d < 10
    ensures '0' <= c <= '9' && c as int - '0' as int == d
  {
    (d + '0' as int) as char
  }

  function Digits(n: nat): (s: string)
    ensures s != [] && forall c <- s :: '0' <= c <= '9'
    ensures n > 0 ==> s[0] != '0'
    ensures n < 10 ==> |s| == 1
  {
    if n < 10 then [Digit(n)] else Digits(n / 10) + [Digit(n % 10)]
  }

  function Decimal(n: int): (s: string)
    ensures NulFree(s)
  {
    if n < 0 then "-" + Digits(-n) else Digits(n)
  }

  function DigitsValue(s: string): int {
    if s == [] then 0
    else 10 * DigitsValue(s[..|s| - 1]) + (s[|s| - 1] as int - '0' as int)
  }

  lemma {:induction false} DigitsRoundTrip(n: nat)
    ensures DigitsValue(Digits(n)) == n
  {
    if n < 10 {
      assert Digits(n) == [Digit(n)];
      assert DigitsValue([]) == 0;
    } else {
      DigitsRoundTrip(n / 10);
      var s := Digits(n);
      assert s[..|s| - 1] == Digits(n / 10);
    }
  }

  lemma DecimalInjective(m: int, n: int)
    requires Decimal(m) == Decimal(n)
    ensures m == n
  {
    var a, b := if m < 0 then -m else m, if n < 0 then -n else n;
    DigitsRoundTrip(a);
    DigitsRoundTrip(b);
    assert Digits(a)[0] in Digits(a) && Digits(b)[0] in Digits(b);
    assert m < 0 ==> Decimal(m)[0] == '-' && Decimal(m)[1..] == Digits(a);
    assert n < 0 ==> Decimal(n)[0] == '-' && Decimal(n)[1..] == Digits(b);
  }

  // Hexadecimal, as encoding/hex writes and checks it.

  type Octet = x: int | 0 <= x < 256 witness 0

  function HexDigit(d: int): (c: char)
    requires 0 <= d < 16
    ensures IsHexDigit(c)
  {
    "0123456789abcdef"[d]
  }

  predicate IsHexDigit(c: char) {
    '0' <= c <= '9' || 'a' <= c <= 'f' || 'A' <= c <= 'F'
  }

  function HexEncode(raw: seq<Octet>): (s: string)
    ensures |s| == 2 * |raw| && forall c <- s :: IsHexDigit(c)
  {
    if raw == [] then ""
    else [HexDigit(raw[0] / 16), HexDigit(raw[0] % 16)] + HexEncode(raw[1..])
  }

  predicate IsLowerDigit(c: char) {
    '0' <= c <= '9' || 'a' <= c <= 'f'
  }

  predicate IsLowerHex(s: string) {
    forall i :: 0 <= i < |s| ==> IsLowerDigit(s[i])
  }

  function LowerDigit(c: char): (d: char)
    ensures IsLowerDigit(d) <==> IsHexDigit(c)
  {
    if 'A' <= c <= 'F' then (c as int + 32) as char else c
  }

  /** 'A' to 'F' as 'a' to 'f'. */
  function LowerHex(s: string): (t: string)
    ensures |t| == |s|
    ensures forall i :: 0 <= i < |s| ==> t[i] == LowerDigit(s[i])
  {
    seq(|s|, i requires 0 <= i < |s| => LowerDigit(s[i]))
  }

  function HexValue(c: char): (d: int)
    requires IsLowerDigit(c)
    ensures 0 <= d < 16 && HexDigit(d) == c
  {
    if c <= '9' then c as int - '0' as int else c as int - 'a' as int + 10
  }

  function Pair(high: int, low: int): (x: Octet)
    requires 0 <= high < 16 && 0 <= low < 16
    ensures x / 16 == high && x % 16 == low
  {
    16 * high + low
  }

  function HexDecode(s: string): (raw: seq<Octet>)
    requires |s| % 2 == 0 && IsLowerHex(s)
    ensures 2 * |raw| == |s|
  {
    if s == [] then [] else [Pair(HexValue(s[0]), HexValue(s[1]))] + HexDecode(s[2..])
  }

  lemma HexCons(x: Octet, rest: seq<Octet>)
    ensures HexEncode([x] + rest) == [HexDigit(x / 16), HexDigit(x % 16)] + HexEncode(rest)
  {
    assert ([x] + rest)[1..] == rest;
  }

  lemma {:induction false} HexRoundTrip(s: string)
    requires |s| % 2 == 0 && IsLowerHex(s)
    ensures HexEncode(HexDecode(s)) == s
  {
    if s != [] {
      HexRoundTrip(s[2..]);
      HexCons(Pair(HexValue(s[0]), HexValue(s[1])), HexDecode(s[2..]));
      assert s == [s[0], s[1]] + s[2..];
    }
  }

  /** What HexEncode yields are lower-case digits. */
  lemma {:induction false} HexIsLower(raw: seq<Octet>)
    ensures IsLowerHex(HexEncode(raw))
  {
    if raw != [] {
      HexIsLower(raw[1..]);
    }
  }

  lemma HexDigitInjective(d: int, e: int)
    requires 0 <= d < 16 && 0 <= e < 16
    requires HexDigit(d) == HexDigit(e)
    ensures d == e
  {
  }

  lemma {:induction false} HexInjective(a: seq<Octet>, b: seq<Octet>)
    requires HexEncode(a) == HexEncode(b)
    ensures a == b
  {
    if a != [] && b != [] {
      var s, t := HexEncode(a), HexEncode(b);
      assert s[0] == t[0] && s[1] == t[1];
      HexDigitInjective(a[0] / 16, b[0] / 16);
      HexDigitInjective(a[0] % 16, b[0] % 16);
      assert s[2..] == HexEncode(a[1..]) && t[2..] == HexEncode(b[1..]);
      HexInjective(a[1..], b[1..]);
      assert a == [a[0]] + a[1..] && b == [b[0]] + b[1..];
    }
  }

  // The bytewise order of Go's `<` on strings.

  /** The strings agree up to `k`, where `a` ends or has the smaller byte. */
  predicate DiffersAt(a: string, b: string, k: nat) {
    && k <= |a| && k < |b| && a[..k] == b[..k]
    && (k == |a| || a[k] < b[k])
  }

  lemma DiffersLater(a: string, b: string, k: nat)
    requires a != [] && b != [] && k > 0
    ensures DiffersAt(a, b, k) <==> a[0] == b[0] && DiffersAt(a[1..], b[1..], k - 1)
  {
    if k <= |a| && k < |b| {
      assert a[..k] == [a[0]] + a[1..][..k - 1] && b[..k] == [b[0]] + b[1..][..k - 1];
      assert a[..k][0] == a[0] && b[..k][0] == b[0];
      assert a[..k][1..] == a[1..][..k - 1] && b[..k][1..] == b[1..][..k - 1];
    }
  }

  lemma {:induction false} LessMeans(a: string, b: string)
    ensures Less(a, b) <==> exists k: nat :: DiffersAt(a, b, k)
  {
    if b != [] {
      if a == [] || a[0] < b[0] {
        assert DiffersAt(a, b, 0);
      } else {
        LessMeans(a[1..], b[1..]);
        if k: nat :| DiffersAt(a[1..], b[1..], k) {
          DiffersLater(a, b, k + 1);
        }
        if k: nat :| DiffersAt(a, b, k) {
          DiffersLater(a, b, k);
        }
      }
    }
  }

  predicate Less(a: string, b: string) {
    b != [] && (a == [] || a[0] < b[0] || (a[0] == b[0] && Less(a[1..], b[1..])))
  }

  lemma {:induction false} LessTotal(a: string, b: string)
    ensures a == b || Less(a, b) || Less(b, a)
  {
    if a != [] && b != [] && a[0] == b[0] {
      LessTotal(a[1..], b[1..]);
      assert a == [a[0]] + a[1..] && b == [b[0]] + b[1..];
    }
  }

  lemma {:induction false} LessTransitive(a: string, b: string, c: string)
    requires Less(a, b) && Less(b, c)
    ensures Less(a, c)
  {
    if a != [] && a[0] == b[0] && b[0] == c[0] {
      LessTransitive(a[1..], b[1..], c[1..]);
    }
  }

  lemma {:induction false} LessIrreflexive(a: string)
    ensures !Less(a, a)
  {
    if a != [] {
      LessIrreflexive(a[1..]);
    }
  }
}
