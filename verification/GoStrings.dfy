/** The parts of Go's `strings` and `strconv` packages that the messaging client relies on. */
module GoStrings {
  import opened Wrappers

  // ----- strings.Split -----

  /** Cuts `s` at every occurrence of `sep`. */
  function Split(s: string, sep: char): (parts: seq<string>)
    ensures |parts| >= 1
  {
    if s == "" then [""]
    else
      var rest := Split(s[1..], sep);
      if s[0] == sep then [""] + rest
      else [[s[0]] + rest[0]] + rest[1..]
  }

  /** The text before the first occurrence of `sep`; all of `s` when there is none. */
  function Before(s: string, sep: char): string {
    if s == "" || s[0] == sep then "" else [s[0]] + Before(s[1..], sep)
  }

  /** `strings.Join`. */
  function Join(parts: seq<string>, sep: char): string
    requires |parts| >= 1
  {
    if |parts| == 1 then parts[0] else parts[0] + [sep] + Join(parts[1..], sep)
  }

  /** Splitting is the inverse of joining, and no piece contains the separator. */
  lemma {:induction false} SplitJoins(s: string, sep: char)
    ensures Join(Split(s, sep), sep) == s
    ensures forall i :: 0 <= i < |Split(s, sep)| ==> sep !in Split(s, sep)[i]
  {
    if s != "" {
      SplitJoins(s[1..], sep);
      var rest, parts := Split(s[1..], sep), Split(s, sep);
      if s[0] == sep {
        assert parts[1..] == rest;
      } else {
        assert parts[1..] == rest[1..];
        if |rest| > 1 {
          assert Join(parts, sep) == [s[0]] + (rest[0] + [sep] + Join(rest[1..], sep));
        }
      }
      assert s == [s[0]] + s[1..];
    }
  }

  lemma {:induction false} SplitWithoutSeparator(s: string, sep: char)
    requires sep !in s
    ensures Split(s, sep) == [s] && Before(s, sep) == s
  {
    if s != "" {
      assert s[0] in s && s[0] != sep;
      SplitWithoutSeparator(s[1..], sep);
      assert s == [s[0]] + s[1..];
    }
  }

  lemma {:induction false} SplitConcat(a: string, sep: char, b: string)
    ensures Split(a + [sep] + b, sep) == Split(a, sep) + Split(b, sep)
  {
    var s := a + [sep] + b;
    if a == "" {
      assert s[1..] == b;
    } else {
      assert s[1..] == a[1..] + [sep] + b;
      SplitConcat(a[1..], sep, b);
    }
  }

  /** And joining is the inverse of splitting, for pieces without the separator. */
  lemma {:induction false} JoinSplits(parts: seq<string>, sep: char)
    requires |parts| >= 1 && forall i :: 0 <= i < |parts| ==> sep !in parts[i]
    ensures Split(Join(parts, sep), sep) == parts
  {
    hide Split;
    SplitWithoutSeparator(parts[0], sep);
    if |parts| > 1 {
      JoinSplits(parts[1..], sep);
      SplitConcat(parts[0], sep, Join(parts[1..], sep));
    }
  }

  lemma {:induction false} SplitHead(s: string, sep: char)
    ensures Split(s, sep)[0] == Before(s, sep)
    ensures |Split(s, sep)| == 1 <==> sep !in s
  {
    if s != "" {
      SplitHead(s[1..], sep);
      assert sep in s <==> s[0] == sep || sep in s[1..];
    }
  }

  lemma {:induction false} BeforeIsSeparatorFree(s: string, sep: char)
    ensures sep !in Before(s, sep)
    ensures Before(s, sep) <= s
    ensures Before(s, sep) == s <==> sep !in s
  {
    if s != "" && s[0] != sep {
      BeforeIsSeparatorFree(s[1..], sep);
      assert s == [s[0]] + s[1..];
      assert sep in s <==> sep in s[1..];
    }
  }

  // ----- strings.TrimSpace -----

  /** `unicode.IsSpace`. */
  predicate IsSpace(c: char) {
    || '\t' <= c <= '\r' || c == ' '
    || c == '\U{0085}' || c == '\U{00A0}' || c == '\U{1680}'
    || '\U{2000}' <= c <= '\U{200A}'
    || c == '\U{2028}' || c == '\U{2029}' || c == '\U{202F}' || c == '\U{205F}' || c == '\U{3000}'
  }

  /** The white space among the ASCII characters. */
  lemma AsciiSpaces(c: char)
    requires c < 128 as char
    ensures IsSpace(c) <==> c in ['\t', '\n', 11 as char, 12 as char, '\r', ' ']
  {
  }

  function TrimLeft(s: string): (r: string)
    ensures r == "" || !IsSpace(r[0])
    ensures |r| <= |s| && r == s[|s| - |r|..]
  {
    if s != "" && IsSpace(s[0]) then TrimLeft(s[1..]) else s
  }

  function TrimRight(s: string): (r: string)
    ensures r == "" || !IsSpace(r[|r| - 1])
    ensures r <= s
  {
    if s != "" && IsSpace(s[|s| - 1]) then TrimRight(s[..|s| - 1]) else s
  }

  function TrimSpace(s: string): string {
    TrimRight(TrimLeft(s))
  }

  predicate IsTrimmed(s: string) {
    s == "" || (!IsSpace(s[0]) && !IsSpace(s[|s| - 1]))
  }

  predicate AllSpace(s: string) {
    forall c :: c in s ==> IsSpace(c)
  }

  lemma {:induction false} TrimLeftCuts(s: string)
    ensures AllSpace(s[..|s| - |TrimLeft(s)|])
  {
    if s != "" && IsSpace(s[0]) {
      TrimLeftCuts(s[1..]);
      var n := |s| - |TrimLeft(s)|;
      assert s[..n] == [s[0]] + s[1..][..n - 1];
    }
  }

  lemma {:induction false} TrimRightCuts(s: string)
    ensures AllSpace(s[|TrimRight(s)|..])
  {
    if s != "" && IsSpace(s[|s| - 1]) {
      var n := |s| - 1;
      TrimRightCuts(s[..n]);
      assert s[|TrimRight(s)|..] == s[..n][|TrimRight(s)|..] + [s[n]];
    }
  }

  /** Trimming leaves a trimmed text, and leaves exactly the trimmed texts alone. */
  lemma TrimSpaceTrims(s: string)
    ensures IsTrimmed(TrimSpace(s))
    ensures TrimSpace(s) == s <==> IsTrimmed(s)
  {
    var left := TrimLeft(s);
    var both := TrimRight(left);
    if both != "" {
      assert both[0] == left[0];
    }
  }

  /** It cuts off white space at both ends, and nothing else. */
  lemma TrimSpaceCutsSpace(s: string)
    ensures exists i, j :: 0 <= i <= j <= |s| && TrimSpace(s) == s[i..j] && AllSpace(s[..i]) && AllSpace(s[j..])
  {
    TrimLeftCuts(s);
    TrimRightCuts(TrimLeft(s));
    hide TrimLeft, TrimRight, AllSpace;
    var left := TrimLeft(s);
    var i := |s| - |left|;
    var j := i + |TrimRight(left)|;
    assert TrimRight(left) == s[i..j] && left[|TrimRight(left)|..] == s[j..];
  }

  /** Trimming leaves nothing of exactly the texts of white space only. */
  lemma TrimSpaceEmptiesExactlyWhenSpace(s: string)
    ensures |TrimSpace(s)| == 0 <==> AllSpace(s)
  {
    hide TrimSpace;
    TrimSpaceCutsSpace(s);
    TrimSpaceTrims(s);
    var i, j :| 0 <= i <= j <= |s| && TrimSpace(s) == s[i..j] && AllSpace(s[..i]) && AllSpace(s[j..]);
    if i == j {
      assert s == s[..i] + s[j..];
      assert forall c :: c in s ==> c in s[..i] || c in s[j..];
    } else {
      assert TrimSpace(s)[0] == s[i] && s[i] in s;
    }
  }

  lemma TrimSpaceShortens(s: string, c: char)
    ensures c in TrimSpace(s) ==> c in s
  {
    var left := TrimLeft(s);
    assert c in TrimRight(left) ==> c in left;
    assert c in left ==> c in s;
  }

  // ----- strconv.Itoa and strconv.Atoi -----

  const MIN_INT64 := -0x8000_0000_0000_0000
  const MAX_INT64 := 0x7FFF_FFFF_FFFF_FFFF

  predicate IsDigit(c: char) {
    '0' <= c <= '9'
  }

  function Digit(n: nat): (c: char)
    requires n < 10
    ensures IsDigit(c)
  {
    '0' + n as char
  }

  function DecimalOfNat(n: nat): string {
    if n < 10 then [Digit(n)] else DecimalOfNat(n / 10) + [Digit(n % 10)]
  }

  function Itoa(n: int): string {
    if n < 0 then "-" + DecimalOfNat(-n) else DecimalOfNat(n)
  }

  predicate AllDigits(s: string) {
    forall c :: c in s ==> IsDigit(c)
  }

  function NatOfDecimal(s: string): nat
    requires AllDigits(s)
  {
    if s == "" then 0
    else
      assert s[|s| - 1] in s;
      NatOfDecimal(s[..|s| - 1]) * 10 + (s[|s| - 1] as int - '0' as int)
  }

  /** Base ten, an optional sign, at least one digit, and a value that fits 64 bits. */
  function Atoi(s: string): Option<int> {
    var signed := s != "" && (s[0] == '-' || s[0] == '+');
    var body := if signed then s[1..] else s;
    if body == "" || !AllDigits(body) then None
    else
      var n: int := if signed && s[0] == '-' then 0 - NatOfDecimal(body) else NatOfDecimal(body);
      if MIN_INT64 <= n <= MAX_INT64 then Some(n) else None
  }

  lemma {:induction false} DecimalRoundTrip(n: nat)
    ensures DecimalOfNat(n) != "" && AllDigits(DecimalOfNat(n))
    ensures NatOfDecimal(DecimalOfNat(n)) == n
  {
    var s := DecimalOfNat(n);
    if n >= 10 {
      DecimalRoundTrip(n / 10);
      assert s[..|s| - 1] == DecimalOfNat(n / 10);
    } else {
      assert s[..|s| - 1] == "";
    }
  }

  /** Printing and parsing an integer gives it back exactly when it fits 64 bits. */
  lemma AtoiOfItoa(n: int)
    ensures Itoa(n) != ""
    ensures Atoi(Itoa(n)) == if MIN_INT64 <= n <= MAX_INT64 then Some(n) else None
  {
    var magnitude: nat := if n < 0 then -n else n;
    DecimalRoundTrip(magnitude);
    var digits := DecimalOfNat(magnitude);
    assert IsDigit(digits[0]);
    if n < 0 {
      assert Itoa(n)[1..] == digits;
    }
  }

  /** The digits of a number, by example. */
  lemma DigitsAreDecimal()
    ensures Itoa(1905) == "1905" && Itoa(-246837) == "-246837"
  {
    assert DecimalOfNat(19) == "19" && DecimalOfNat(190) == "190" && DecimalOfNat(1905) == "1905";
    assert DecimalOfNat(24) == "24" && DecimalOfNat(246) == "246" && DecimalOfNat(2468) == "2468";
    assert DecimalOfNat(24683) == "24683" && DecimalOfNat(246837) == "246837";
  }

  function Zeros(n: nat): string {
    seq(n, _ => '0')
  }

  /** An optional sign, any number of leading zeros, and the digits of `n`. */
  ghost predicate IsNumeral(s: string, n: int) {
    exists z: nat ::
      var digits := Zeros(z) + DecimalOfNat(if n < 0 then -n else n);
      (n >= 0 && (s == digits || s == "+" + digits)) || (n <= 0 && s == "-" + digits)
  }

  lemma {:induction false} LeadingZeros(z: nat, n: nat)
    ensures AllDigits(Zeros(z) + DecimalOfNat(n)) && NatOfDecimal(Zeros(z) + DecimalOfNat(n)) == n
    decreases n, z
  {
    var s := Zeros(z) + DecimalOfNat(n);
    DecimalRoundTrip(n);
    if n >= 10 {
      LeadingZeros(z, n / 10);
      assert s[..|s| - 1] == Zeros(z) + DecimalOfNat(n / 10);
    } else if z > 0 {
      LeadingZeros(z - 1, 0);
      assert s[..|s| - 1] == Zeros(z) == Zeros(z - 1) + DecimalOfNat(0);
    } else {
      assert s == [Digit(n)] && s[..0] == "";
    }
  }

  lemma OneMoreDigit(n: nat, d: nat)
    requires d < 10
    ensures n > 0 ==> DecimalOfNat(n * 10 + d) == DecimalOfNat(n) + [Digit(d)]
    ensures n == 0 ==> DecimalOfNat(n * 10 + d) == [Digit(d)]
    ensures DecimalOfNat(0) == "0"
  {
  }

  lemma LastDigit(s: string) returns (d: nat)
    requires s != "" && AllDigits(s)
    ensures AllDigits(s[..|s| - 1]) && d < 10 && s[|s| - 1] == Digit(d)
    ensures NatOfDecimal(s) == NatOfDecimal(s[..|s| - 1]) * 10 + d
  {
    var n := |s| - 1;
    assert s[n] in s;
    d := s[n] as int - '0' as int;
    assert forall c :: c in s[..n] ==> c in s;
  }

  lemma {:induction false} DigitsAreNumeral(s: string) returns (z: nat)
    requires s != "" && AllDigits(s)
    ensures s == Zeros(z) + DecimalOfNat(NatOfDecimal(s))
  {
    var n := |s| - 1;
    var d := LastDigit(s);
    assert s == s[..n] + [Digit(d)];
    if n == 0 {
      assert NatOfDecimal(s[..0]) == 0;
      hide NatOfDecimal, DecimalOfNat, AllDigits;
      OneMoreDigit(0, d);
      z := 0;
    } else {
      hide NatOfDecimal, DecimalOfNat, AllDigits;
      var m := NatOfDecimal(s[..n]);
      z := DigitsAreNumeral(s[..n]);
      OneMoreDigit(m, d);
      if m == 0 {
        assert s[..n] == Zeros(z + 1);
        z := z + 1;
      }
    }
  }

  /** The sign and the digits that are parsed. */
  lemma AtoiReads(sign: string, body: string)
    requires sign in ["", "+", "-"] && body != "" && AllDigits(body)
    ensures var n: int := if sign == "-" then 0 - NatOfDecimal(body) else NatOfDecimal(body);
            Atoi(sign + body) == if MIN_INT64 <= n <= MAX_INT64 then Some(n) else None
  {
    hide NatOfDecimal;
    assert body[0] in body && IsDigit(body[0]);
    assert sign != "" ==> (sign + body)[1..] == body;
    assert sign == "" ==> sign + body == body;
  }

  /** Nothing else is parsed. */
  lemma AtoiRefuses(s: string) returns (sign: string, body: string)
    requires Atoi(s).Some?
    ensures s == sign + body && sign in ["", "+", "-"] && body != "" && AllDigits(body)
  {
    hide NatOfDecimal;
    var signed := s[0] == '-' || s[0] == '+';
    sign, body := if signed then [s[0]] else "", if signed then s[1..] else s;
    assert s == sign + body;
  }

  /** A text is parsed as `n` exactly when it is a numeral of `n`, and `n` fits 64 bits; every other text is refused. */
  lemma AtoiExactlyNumerals(s: string, n: int)
    ensures Atoi(s) == Some(n) <==> MIN_INT64 <= n <= MAX_INT64 && IsNumeral(s, n)
  {
    hide Atoi, NatOfDecimal, DecimalOfNat, AllDigits;
    if Atoi(s) == Some(n) {
      var sign, body := AtoiRefuses(s);
      AtoiReads(sign, body);
      var z := DigitsAreNumeral(body);
    }
    if MIN_INT64 <= n <= MAX_INT64 && IsNumeral(s, n) {
      var magnitude: nat := if n < 0 then -n else n;
      var z: nat :| var digits := Zeros(z) + DecimalOfNat(magnitude);
                    (n >= 0 && (s == digits || s == "+" + digits)) || (n <= 0 && s == "-" + digits);
      LeadingZeros(z, magnitude);
      DecimalRoundTrip(magnitude);
      var digits := Zeros(z) + DecimalOfNat(magnitude);
      AtoiReads("", digits);
      AtoiReads("+", digits);
      AtoiReads("-", digits);
      assert "" + digits == digits;
    }
  }
}
