/** The string helpers the handler borrows from Go's standard library:
    `strings.Join`, and `fmt.Sprintf("%d", n)` for integers. Each comes with
    a partner that undoes it (`Split`, `ParseDecimal`) and a lemma that the
    two round-trip. */
module Text {
  import opened Results

  /** `strings.Join(parts, sep)`: the parts with `sep` between neighbours;
      no parts give the empty string. */
  function Join(parts: seq<string>, sep: string): string
  {
    if |parts| == 0 then ""
    else if |parts| == 1 then parts[0]
    else parts[0] + sep + Join(parts[1..], sep)
  }

  /** `strings.Split(s, string(c))`: the maximal pieces of `s` between
      occurrences of `c`; always at least one piece. */
  function Split(s: string, c: char): (r: seq<string>)
    ensures |r| >= 1
  {
    if |s| == 0 then [""]
    else
      var rest := Split(s[1..], c);
      if s[0] == c then [""] + rest
      else [[s[0]] + rest[0]] + rest[1..]
  }

  /** A string without the separator is a single piece. */
  lemma {:induction false} SplitWithoutSeparator(a: string, c: char)
    requires c !in a
    ensures Split(a, c) == [a]
  {
    if |a| > 0 {
      assert c !in a[1..];
      SplitWithoutSeparator(a[1..], c);
      assert [a[0]] + a[1..] == a;
    }
  }

  /** Splitting at the first separator peels off the piece before it. */
  lemma {:induction false} SplitAtFirstSeparator(a: string, c: char, b: string)
    requires c !in a
    ensures Split(a + [c] + b, c) == [a] + Split(b, c)
  {
    var s := a + [c] + b;
    if |a| == 0 {
      assert s[1..] == b;
    } else {
      assert s[1..] == a[1..] + [c] + b;
      assert c !in a[1..];
      SplitAtFirstSeparator(a[1..], c, b);
      assert [a[0]] + a[1..] == a;
    }
  }

  /** Joining with a one-character separator is undone by splitting on it,
      as long as there is at least one part and no part contains the
      separator. */
  lemma {:induction false} SplitJoin(parts: seq<string>, c: char)
    requires |parts| > 0
    requires forall i :: 0 <= i < |parts| ==> c !in parts[i]
    ensures Split(Join(parts, [c]), c) == parts
  {
    if |parts| == 1 {
      SplitWithoutSeparator(parts[0], c);
    } else {
      SplitJoin(parts[1..], c);
      SplitAtFirstSeparator(parts[0], c, Join(parts[1..], [c]));
      assert [parts[0]] + parts[1..] == parts;
    }
  }

  predicate IsDigit(ch: char) {
    '0' <= ch <= '9'
  }

  predicate AllDigits(s: string) {
    forall i :: 0 <= i < |s| ==> IsDigit(s[i])
  }

  function DigitChar(d: nat): (ch: char)
    requires d < 10
    ensures IsDigit(ch)
  {
    ('0' as int + d) as char
  }

  function DigitValue(ch: char): (d: nat)
    requires IsDigit(ch)
    ensures d < 10 && DigitChar(d) == ch
  {
    ch as int - '0' as int
  }

  /** A non-empty run of digits without a leading zero, or "0" itself. */
  predicate CanonicalDigits(s: string) {
    |s| >= 1 && AllDigits(s) && (s[0] == '0' ==> |s| == 1)
  }

  /** Base-10 digits of `n`, most significant first, without leading zeros. */
  function NatToDecimal(n: nat): (r: string)
    ensures CanonicalDigits(r)
    ensures r[0] == '0' ==> n == 0
  {
    if n < 10 then [DigitChar(n)]
    else NatToDecimal(n / 10) + [DigitChar(n % 10)]
  }

  function ParseNat(s: string): nat
    requires AllDigits(s)
  {
    if |s| == 0 then 0
    else ParseNat(s[..|s| - 1]) * 10 + DigitValue(s[|s| - 1])
  }

  /** `fmt.Sprintf("%d", n)`: a minus sign for negatives, then the digits. */
  function Decimal(n: int): string
  {
    if n < 0 then "-" + NatToDecimal(-n) else NatToDecimal(n)
  }

  /** Reads back exactly the spellings `%d` produces: canonical digits,
      optionally after a minus sign when they are not "0". */
  function ParseDecimal(s: string): Option<int>
  {
    if |s| > 1 && s[0] == '-' && CanonicalDigits(s[1..]) && s[1..] != "0" then Some(-(ParseNat(s[1..]) as int))
    else if CanonicalDigits(s) then Some(ParseNat(s))
    else None
  }

  lemma {:induction false} ParseNatToDecimal(n: nat)
    ensures ParseNat(NatToDecimal(n)) == n
  {
    var s := NatToDecimal(n);
    if n >= 10 {
      assert s[..|s| - 1] == NatToDecimal(n / 10);
      ParseNatToDecimal(n / 10);
    }
  }

  /** Canonical digits other than "0" denote a positive number. */
  lemma {:induction false} ParseNatPositive(s: string)
    requires CanonicalDigits(s) && s != "0"
    ensures ParseNat(s) >= 1
  {
    if |s| == 1 {
      assert s == [s[0]];
      assert s[..0] == "";
    } else {
      var front := s[..|s| - 1];
      assert front[0] == s[0];
      ParseNatPositive(front);
    }
  }

  /** Rendering the value of canonical digits gives back the digits. */
  lemma {:induction false} NatToDecimalParseNat(s: string)
    requires CanonicalDigits(s)
    ensures NatToDecimal(ParseNat(s)) == s
  {
    var last := s[|s| - 1];
    var front := s[..|s| - 1];
    if |s| == 1 {
      assert front == "";
      assert s == [last];
    } else {
      assert front[0] == s[0];
      ParseNatPositive(front);
      NatToDecimalParseNat(front);
      var m := ParseNat(s);
      assert m == ParseNat(front) * 10 + DigitValue(last);
      assert m / 10 == ParseNat(front) && m % 10 == DigitValue(last);
      assert s == front + [last];
    }
  }

  /** The rendering of an integer reads back as that integer. */
  lemma DecimalRoundTrip(n: int)
    ensures ParseDecimal(Decimal(n)) == Some(n)
  {
    if n < 0 {
      var digits := NatToDecimal(-n);
      var s := "-" + digits;
      assert s[1..] == digits;
      assert s[0] == '-';
      ParseNatToDecimal(-n);
      assert digits != "0";
      assert ParseDecimal(s) == Some(-(ParseNat(digits) as int));
    } else {
      var s := NatToDecimal(n);
      assert s[0] != '-' by {
        assert IsDigit(s[0]);
      }
      ParseNatToDecimal(n);
    }
  }

  /** A string parses as `n` exactly when it is the `%d` rendering of `n`:
      no leading zeros, no "-0", nothing else. */
  lemma DecimalParsesExactly(s: string, n: int)
    ensures ParseDecimal(s) == Some(n) <==> s == Decimal(n)
  {
    DecimalRoundTrip(n);
    if ParseDecimal(s) == Some(n) {
      if |s| > 1 && s[0] == '-' && CanonicalDigits(s[1..]) && s[1..] != "0" {
        ParseNatPositive(s[1..]);
        NatToDecimalParseNat(s[1..]);
        assert s == "-" + s[1..];
      } else {
        NatToDecimalParseNat(s);
      }
    }
  }

  /** Distinct integers render differently. */
  lemma DecimalInjective(a: int, b: int)
    ensures Decimal(a) == Decimal(b) ==> a == b
  {
    DecimalRoundTrip(a);
    DecimalRoundTrip(b);
  }
}
