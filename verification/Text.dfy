/** Strings as the source uses them: the byte order on `node_id` and VIP strings, and dotted-decimal IPv4 text. */
module Text {
  import opened Wrappers

  // ---------- order ----------

  /** Lexicographic order, as `str` comparison. */
  predicate Less(a: string, b: string) {
    if b == [] then false
    else if a == [] then true
    else a[0] < b[0] || (a[0] == b[0] && Less(a[1..], b[1..]))
  }

  lemma {:induction false} LessTotal(a: string, b: string)
    ensures a == b || Less(a, b) || Less(b, a)
    ensures !(Less(a, b) && Less(b, a))
    ensures !Less(a, a)
  {
    if a != [] {
      LessTotal(a[1..], a[1..]);
      if b != [] {
        LessTotal(a[1..], b[1..]);
        if a[0] == b[0] && a[1..] == b[1..] {
          assert a == [a[0]] + a[1..] && b == [b[0]] + b[1..];
        }
      }
    }
  }

  lemma {:induction false} LessTransitive(a: string, b: string, c: string)
    requires Less(a, b) && Less(b, c)
    ensures Less(a, c)
  {
    if a != [] && a[0] == b[0] == c[0] {
      LessTransitive(a[1..], b[1..], c[1..]);
    }
  }

  /** Every non-empty set of strings has a least element. */
  lemma {:induction false} LeastExists(s: set<string>) returns (least: string)
    requires s != {}
    ensures least in s && forall x :: x in s ==> !Less(x, least)
    decreases |s|
  {
    least :| least in s;
    var rest := s - {least};
    if rest == {} {
      LessTotal(least, least);
      assert forall x :: x in s ==> x == least || x in rest;
    } else {
      var other := LeastExists(rest);
      LessTotal(least, least);
      if Less(other, least) {
        forall x | x in s
          ensures !Less(x, other)
        {
          if x == least {
            LessTotal(other, least);
          } else {
            assert x in rest;
          }
        }
        least := other;
      } else {
        forall x | x in s
          ensures !Less(x, least)
        {
          if x != least {
            assert x in rest;
            LessTotal(x, other);
            if Less(x, least) && x != other {
              LessTotal(other, x);
              LessTransitive(other, x, least);
            }
          }
        }
      }
    }
  }

  // ---------- dotted-decimal IPv4 ----------

  type Octet = n: int | 0 <= n < 0x100

  datatype Ipv4 = Ipv4(a: Octet, b: Octet, c: Octet, d: Octet)

  function ToU32(ip: Ipv4): nat {
    ((ip.a * 0x100 + ip.b) * 0x100 + ip.c) * 0x100 + ip.d
  }

  function Digit(n: int): char
    requires 0 <= n < 10
  {
    '0' + n as char
  }

  predicate IsDigit(c: char) {
    '0' <= c <= '9'
  }

  function DigitValue(c: char): nat
    requires IsDigit(c)
  {
    (c - '0') as nat
  }

  function FormatOctet(n: Octet): string {
    if n < 10 then [Digit(n)]
    else if n < 100 then [Digit(n / 10), Digit(n % 10)]
    else [Digit(n / 100), Digit(n / 10 % 10), Digit(n % 10)]
  }

  function FormatIpv4(ip: Ipv4): string {
    FormatOctet(ip.a) + "." + (FormatOctet(ip.b) + "." + (FormatOctet(ip.c) + "." + FormatOctet(ip.d)))
  }

  /** `str::split('.')` */
  function Split(s: string): (parts: seq<string>)
    ensures |parts| >= 1
  {
    if s == [] then [""]
    else if s[0] == '.' then [""] + Split(s[1..])
    else
      var rest := Split(s[1..]);
      [[s[0]] + rest[0]] + rest[1..]
  }

  /** One octet as `Ipv4Addr` reads it: one to three digits, no leading zero, at most 255. */
  function ParseOctet(t: string): Option<Octet> {
    if !(1 <= |t| <= 3) || exists i :: 0 <= i < |t| && !IsDigit(t[i]) then None
    else if |t| > 1 && t[0] == '0' then None
    else
      var n := if |t| == 1 then DigitValue(t[0])
               else if |t| == 2 then DigitValue(t[0]) * 10 + DigitValue(t[1])
               else DigitValue(t[0]) * 100 + DigitValue(t[1]) * 10 + DigitValue(t[2]);
      if n <= 255 then Some(n) else None
  }

  function ParseIpv4(s: string): Option<Ipv4> {
    var parts := Split(s);
    if |parts| != 4 then None
    else
      var a, b, c, d := ParseOctet(parts[0]), ParseOctet(parts[1]), ParseOctet(parts[2]), ParseOctet(parts[3]);
      if a.Some? && b.Some? && c.Some? && d.Some? then Some(Ipv4(a.value, b.value, c.value, d.value)) else None
  }

  /** One octet as `u8::from_str` reads it: an optional plus sign and any number of digits, at most 255. */
  function ParseU8(t: string): Option<Octet> {
    var digits := if t != [] && t[0] == '+' then t[1..] else t;
    if digits == [] || exists i :: 0 <= i < |digits| && !IsDigit(digits[i]) then None
    else
      var n := DecimalValue(digits);
      if n <= 255 then Some(n) else None
  }

  function DecimalValue(digits: string): nat
    requires forall i :: 0 <= i < |digits| ==> IsDigit(digits[i])
  {
    if digits == [] then 0 else DecimalValue(digits[..|digits| - 1]) * 10 + DigitValue(digits[|digits| - 1])
  }

  lemma OctetRoundTrip(n: Octet)
    ensures ParseOctet(FormatOctet(n)) == Some(n)
    ensures '.' !in FormatOctet(n)
  {
    if n < 10 {
    } else if n < 100 {
      assert 1 <= n / 10 < 10;
    } else {
      var x, y, z := n / 100, n / 10 % 10, n % 10;
      assert 1 <= x < 10 && n == x * 100 + y * 10 + z;
    }
  }

  lemma OctetCanonical(t: string)
    requires ParseOctet(t).Some?
    ensures FormatOctet(ParseOctet(t).value) == t
  {
    assert IsDigit(t[0]);
    if |t| == 1 {
      assert t == [Digit(DigitValue(t[0]))];
    } else {
      var x, y := DigitValue(t[0]), DigitValue(t[1]);
      assert IsDigit(t[1]) && x > 0;
      if |t| == 2 {
        assert (x * 10 + y) / 10 == x && (x * 10 + y) % 10 == y;
      } else {
        var z := DigitValue(t[2]);
        assert IsDigit(t[2]);
        DecimalParts(x, y, z);
      }
    }
  }

  lemma DecimalParts(x: nat, y: nat, z: nat)
    requires x < 10 && y < 10 && z < 10
    ensures var n := x * 100 + y * 10 + z; n / 100 == x && n / 10 % 10 == y && n % 10 == z
  {
  }

  function Join(parts: seq<string>): string
    requires |parts| >= 1
  {
    if |parts| == 1 then parts[0] else parts[0] + ("." + Join(parts[1..]))
  }

  lemma JoinLonger(c: char, parts: seq<string>)
    requires |parts| >= 1
    ensures Join([[c] + parts[0]] + parts[1..]) == [c] + Join(parts)
  {
    var longer := [[c] + parts[0]] + parts[1..];
    if |parts| > 1 {
      assert longer[1..] == parts[1..];
      var rest := "." + Join(parts[1..]);
      hide Join;
      assert ([c] + parts[0]) + rest == [c] + (parts[0] + rest);
    }
  }

  lemma JoinDot(parts: seq<string>)
    requires |parts| >= 1
    ensures Join([""] + parts) == "." + Join(parts)
  {
    assert ([""] + parts)[1..] == parts;
  }

  lemma {:induction false} JoinSplit(s: string)
    ensures Join(Split(s)) == s
  {
    if s != [] {
      hide Join;
      JoinSplit(s[1..]);
      JoinDot(Split(s[1..]));
      JoinLonger(s[0], Split(s[1..]));
      assert s == [s[0]] + s[1..];
    }
  }

  lemma {:induction false} SplitFirst(t: string, rest: string)
    requires '.' !in t
    ensures Split(t + "." + rest) == [t] + Split(rest)
    ensures Split(t) == [t]
  {
    if t == [] {
      assert t + "." + rest == "." + rest;
    } else {
      SplitFirst(t[1..], rest);
      assert (t + "." + rest)[1..] == t[1..] + "." + rest;
      assert t[0] in t;
      assert [t[0]] + t[1..] == t;
    }
  }

  /** The parser accepts exactly the canonical text of each address, and reads it back. */
  lemma Ipv4RoundTrip(s: string, ip: Ipv4)
    ensures ParseIpv4(s) == Some(ip) <==> s == FormatIpv4(ip)
  {
    hide ParseOctet, FormatOctet, Split;
    if s == FormatIpv4(ip) {
      OctetRoundTrip(ip.a);
      OctetRoundTrip(ip.b);
      OctetRoundTrip(ip.c);
      OctetRoundTrip(ip.d);
      SplitFirst(FormatOctet(ip.a), FormatOctet(ip.b) + "." + (FormatOctet(ip.c) + "." + FormatOctet(ip.d)));
      SplitFirst(FormatOctet(ip.b), FormatOctet(ip.c) + "." + FormatOctet(ip.d));
      SplitFirst(FormatOctet(ip.c), FormatOctet(ip.d));
      SplitFirst(FormatOctet(ip.d), "");
    }
    if ParseIpv4(s) == Some(ip) {
      var parts := Split(s);
      JoinSplit(s);
      OctetCanonical(parts[0]);
      OctetCanonical(parts[1]);
      OctetCanonical(parts[2]);
      OctetCanonical(parts[3]);
      assert Join(parts[3..]) == parts[3];
      assert parts[1..][1..] == parts[2..] && parts[2..][1..] == parts[3..];
      assert Join(parts[2..]) == parts[2] + "." + parts[3];
      assert Join(parts[1..]) == parts[1] + "." + Join(parts[2..]);
    }
  }

  /** Distinct texts never denote the same address. */
  lemma Ipv4TextUnique(s: string, t: string)
    requires ParseIpv4(s).Some? && ParseIpv4(s) == ParseIpv4(t)
    ensures s == t
  {
    Ipv4RoundTrip(s, ParseIpv4(s).value);
    Ipv4RoundTrip(t, ParseIpv4(s).value);
  }

  lemma ToU32Injective(x: Ipv4, y: Ipv4)
    requires ToU32(x) == ToU32(y)
    ensures x == y
  {
  }
}
