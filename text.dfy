/**
 * String helpers shared by the model: decimal digits and zero padding (Python's
 * `f"{n:02d}"`), ASCII-level lower-casing (`str.lower`), whitespace stripping
 * (`str.strip`) and the position of the last '.' (`str.rsplit('.', 1)`).
 */
module Text {
  import opened Wrappers

  predicate IsDigit(c: char) {
    '0' <= c <= '9'
  }

  predicate AllDigits(s: string) {
    forall i :: 0 <= i < |s| ==> IsDigit(s[i])
  }

  function DigitChar(d: nat): (c: char)
    requires d < 10
    ensures IsDigit(c) && c as int - '0' as int == d
  {
    ('0' as int + d) as char
  }

  function DigitValue(c: char): (d: nat)
    requires IsDigit(c)
    ensures d < 10
  {
    c as int - '0' as int
  }

  function Pow10(n: nat): (p: nat)
    ensures p >= 1
  {
    if n == 0 then 1 else 10 * Pow10(n - 1)
  }

  /** The decimal representation of `n`, without leading zeros ("0" for zero). */
  function Digits(n: nat): (s: string)
    ensures |s| >= 1 && AllDigits(s)
  {
    if n < 10 then [DigitChar(n)] else Digits(n / 10) + [DigitChar(n % 10)]
  }

  /** The value of a string of decimal digits (leading zeros allowed). */
  function ParseDigits(s: string): nat
    requires AllDigits(s)
  {
    if s == [] then 0 else 10 * ParseDigits(s[..|s| - 1]) + DigitValue(s[|s| - 1])
  }

  lemma {:induction false} ParseDigitsOfDigits(n: nat)
    ensures ParseDigits(Digits(n)) == n
  {
    if n >= 10 {
      var s := Digits(n);
      assert s[..|s| - 1] == Digits(n / 10);
      ParseDigitsOfDigits(n / 10);
    }
  }

  /** `n` has at most `w` decimal digits exactly when it is below 10^w. */
  lemma {:induction false} DigitsLength(n: nat, w: nat)
    requires w >= 1
    ensures |Digits(n)| <= w <==> n < Pow10(w)
  {
    if n >= 10 {
      if w == 1 {
        assert |Digits(n)| == |Digits(n / 10)| + 1;
      } else {
        DigitsLength(n / 10, w - 1);
        assert n < Pow10(w) <==> n / 10 < Pow10(w - 1);
      }
    }
  }

  function Zeros(k: nat): (s: string)
    ensures |s| == k && AllDigits(s)
    ensures forall i :: 0 <= i < k ==> s[i] == '0'
  {
    seq(k, _ => '0')
  }

  lemma {:induction false} ParseDigitsLeadingZeros(k: nat, s: string)
    requires AllDigits(s)
    ensures AllDigits(Zeros(k) + s) && ParseDigits(Zeros(k) + s) == ParseDigits(s)
  {
    var z := Zeros(k) + s;
    if s == [] {
      ParseZeros(k);
      assert z == Zeros(k);
    } else {
      var t := s[..|s| - 1];
      assert z[..|z| - 1] == Zeros(k) + t;
      ParseDigitsLeadingZeros(k, t);
    }
  }

  lemma {:induction false} ParseZeros(k: nat)
    ensures ParseDigits(Zeros(k)) == 0
  {
    if k > 0 {
      assert Zeros(k)[..k - 1] == Zeros(k - 1);
      ParseZeros(k - 1);
    }
  }

  /** Python's `f"{n:0{width}d}"`: the digits of `n`, zero-padded on the left to `width`. */
  function PadNumber(n: nat, width: nat): string {
    var d := Digits(n);
    Zeros(if |d| < width then width - |d| else 0) + d
  }

  /** A padded number is all digits, has the requested width (or more, when `n`
      needs more digits) and reads back as `n`. */
  lemma PadNumberValue(n: nat, width: nat)
    ensures var s := PadNumber(n, width);
      && AllDigits(s) && ParseDigits(s) == n
      && |s| == if |Digits(n)| < width then width else |Digits(n)|
  {
    var d := Digits(n);
    ParseDigitsOfDigits(n);
    ParseDigitsLeadingZeros(if |d| < width then width - |d| else 0, d);
  }

  /** Below 10^width the padded number is exactly `width` characters long. */
  lemma PadNumberWidth(n: nat, width: nat)
    requires width >= 1 && n < Pow10(width)
    ensures |PadNumber(n, width)| == width
  {
    DigitsLength(n, width);
  }

  /** Lower-casing of a single character, as `str.lower` does it for the characters whose
      lower case is ASCII: an ASCII capital becomes the same letter in lower case and the
      Kelvin sign (U+212A) becomes 'k'. Every other character is left as it is. */
  function LowerChar(c: char): (r: char)
    ensures !('A' <= r <= 'Z')
    ensures 'A' <= c <= 'Z' ==> 'a' <= r <= 'z' && r as int - 'a' as int == c as int - 'A' as int
    ensures c == '\U{212A}' ==> r == 'k'
    ensures r != c ==> 'A' <= c <= 'Z' || c == '\U{212A}'
    ensures r == '.' <==> c == '.'
  {
    if 'A' <= c <= 'Z' then (c as int + 32) as char
    else if c == '\U{212A}' then 'k'
    else c
  }

  /** `str.lower`, one character at a time. */
  function Lower(s: string): (r: string)
    ensures |r| == |s|
    ensures forall i :: 0 <= i < |r| ==> !('A' <= r[i] <= 'Z')
    ensures forall i :: 0 <= i < |s| ==> (r[i] == '.' <==> s[i] == '.')
  {
    seq(|s|, i requires 0 <= i < |s| => LowerChar(s[i]))
  }

  /** Lower-casing twice is lower-casing once. */
  lemma LowerIdempotent(s: string)
    ensures Lower(Lower(s)) == Lower(s)
  {
    forall i | 0 <= i < |s|
      ensures Lower(Lower(s))[i] == Lower(s)[i]
    {
      var c := s[i];
      assert Lower(s)[i] == LowerChar(c);
      assert LowerChar(LowerChar(c)) == LowerChar(c);
    }
  }

  /** Lower-casing commutes with taking a suffix. */
  lemma LowerSuffix(s: string, i: nat)
    requires i <= |s|
    ensures Lower(s)[i..] == Lower(s[i..])
  {
  }

  /** Lower-casing moves no '.', so the last '.' is found at the same place. */
  lemma LastDotLower(s: string)
    ensures LastDot(Lower(s)) == LastDot(s)
  {
    var t := Lower(s);
    match LastDot(s)
    case None =>
      assert forall k :: 0 <= k < |t| ==> t[k] != '.' by {
        forall k | 0 <= k < |t| ensures t[k] != '.' {
          assert s[k] != '.';
        }
      }
    case Some(i) =>
      forall k | i + 1 <= k < |t|
        ensures t[k] != '.'
      {
        assert s[k] == s[i + 1..][k - i - 1];
      }
      var u := t[i + 1..];
      forall k | 0 <= k < |u|
        ensures u[k] != '.'
      {
        assert u[k] == t[i + 1 + k];
      }
      LastDotUnique(t, i);
  }

  /** Python's `str.isspace` for one character. */
  predicate IsSpace(c: char) {
    var k := c as int;
    (9 <= k <= 13) || (28 <= k <= 32) || k == 0x85 || k == 0xA0 || k == 0x1680
    || (0x2000 <= k <= 0x200A) || k == 0x2028 || k == 0x2029 || k == 0x202F
    || k == 0x205F || k == 0x3000
  }

  predicate AllSpace(s: string) {
    forall i :: 0 <= i < |s| ==> IsSpace(s[i])
  }

  /** The number of whitespace characters at the front of `s`. */
  function LeadingSpace(s: string): (k: nat)
    ensures k <= |s| && AllSpace(s[..k])
    ensures k < |s| ==> !IsSpace(s[k])
  {
    if s == [] || !IsSpace(s[0]) then 0
    else
      var k := LeadingSpace(s[1..]);
      assert s[1..][..k] == s[1..k + 1];
      k + 1
  }

  /** Python's `str.strip()`: `s` without its leading and trailing whitespace. */
  function Strip(s: string): string
    decreases |s|
  {
    if s == [] then []
    else if IsSpace(s[0]) then Strip(s[1..])
    else if IsSpace(s[|s| - 1]) then Strip(s[..|s| - 1])
    else s
  }

  /** What `Strip` keeps is empty or starts and ends with a non-space; it is empty
      exactly when `s` is all whitespace. */
  lemma {:induction false} StripEnds(s: string)
    ensures var r := Strip(s);
      && (r == [] || (!IsSpace(r[0]) && !IsSpace(r[|r| - 1])))
      && (r == [] <==> AllSpace(s))
    decreases |s|
  {
    if s != [] && IsSpace(s[0]) {
      StripEnds(s[1..]);
      assert AllSpace(s) ==> AllSpace(s[1..]) by {
        if AllSpace(s) {
          forall i | 0 <= i < |s[1..]| ensures IsSpace(s[1..][i]) {
            assert s[1..][i] == s[i + 1];
          }
        }
      }
      assert s == [s[0]] + s[1..];
    } else if s != [] && IsSpace(s[|s| - 1]) {
      StripEnds(s[..|s| - 1]);
      assert s == s[..|s| - 1] + [s[|s| - 1]];
    }
  }

  /** What `Strip` keeps is the part of `s` after its leading whitespace, followed in
      `s` only by whitespace. */
  lemma {:induction false} StripSlice(s: string)
    ensures var r, i := Strip(s), LeadingSpace(s);
      && i + |r| <= |s| && r == s[i..i + |r|] && AllSpace(s[i + |r|..])
    decreases |s|
  {
    if s == [] {
    } else if IsSpace(s[0]) {
      var t := s[1..];
      StripSlice(t);
      var r, j := Strip(t), LeadingSpace(t);
      assert LeadingSpace(s) == j + 1;
      assert s[j + 1..j + 1 + |r|] == t[j..j + |r|];
      assert s[j + 1 + |r|..] == t[j + |r|..];
    } else if IsSpace(s[|s| - 1]) {
      var t := s[..|s| - 1];
      StripSlice(t);
      var r := Strip(t);
      assert t[0] == s[0];
      assert LeadingSpace(t) == 0;
      assert s[..|r|] == t[..|r|];
      assert s[|r|..] == t[|r|..] + [s[|s| - 1]];
    }
  }

  /** The index of the last '.' in `s`, if there is one. */
  function LastDot(s: string): (r: Option<nat>)
    ensures r.None? <==> '.' !in s
    ensures r.Some? ==> r.value < |s| && s[r.value] == '.' && '.' !in s[r.value + 1..]
  {
    if s == [] then None
    else if s[|s| - 1] == '.' then Some(|s| - 1)
    else
      var t := s[..|s| - 1];
      var r := LastDot(t);
      assert s == t + [s[|s| - 1]];
      if r.Some? then assert s[r.value + 1..] == t[r.value + 1..] + [s[|s| - 1]]; r
      else r
  }

  /** Any '.' that has no '.' after it is the one `LastDot` finds. */
  lemma LastDotUnique(s: string, i: nat)
    requires i < |s| && s[i] == '.' && '.' !in s[i + 1..]
    ensures LastDot(s) == Some(i)
  {
  }
}
