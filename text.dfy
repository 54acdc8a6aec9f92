/** String helpers: Python's `" ".join`, `str(int)` and the `'?' * n` of
    anonymous names. */
module Text {

  /** `" ".join(words)`: the words with one space between neighbours. */
  function Join(words: seq<string>): (r: string)
    ensures words == [] ==> r == ""
    ensures |words| == 1 ==> r == words[0]
  {
    if |words| == 0 then ""
    else if |words| == 1 then words[0]
    else words[0] + " " + Join(words[1..])
  }

  /** The first word always starts the joined string. */
  lemma JoinStartsWithFirst(words: seq<string>)
    requires |words| >= 1
    ensures words[0] <= Join(words)
  {
  }

  /** `c * n`: the string of n copies of c. */
  function Repeat(c: char, n: nat): (r: string)
    ensures |r| == n
    ensures forall i :: 0 <= i < n ==> r[i] == c
  {
    if n == 0 then "" else Repeat(c, n - 1) + [c]
  }

  /** The regular expression `^\?+$`: one or more question marks and nothing else. */
  predicate AllQuestionMarks(s: string)
  {
    |s| >= 1 && forall i :: 0 <= i < |s| ==> s[i] == '?'
  }

  lemma RepeatIsQuestionMarks(n: nat)
    requires n >= 1
    ensures AllQuestionMarks(Repeat('?', n))
  {
  }

  function DigitChar(d: nat): (c: char)
    requires d < 10
  {
    "0123456789"[d]
  }

  function CharDigit(c: char): (d: nat)
    ensures d < 10
  {
    if '0' <= c <= '9' then (c as int - '0' as int) as nat else 0
  }

  /** The decimal digits of n, most significant first, with no leading zero. */
  function NatToString(n: nat): (r: string)
    ensures |r| >= 1
    ensures forall i :: 0 <= i < |r| ==> '0' <= r[i] <= '9'
    decreases n
  {
    if n < 10 then [DigitChar(n)] else NatToString(n / 10) + [DigitChar(n % 10)]
  }

  /** The value of a string of decimal digits. */
  function DigitsValue(s: string): nat
  {
    if s == [] then 0 else DigitsValue(s[..|s| - 1]) * 10 + CharDigit(s[|s| - 1])
  }

  /** `str(n)` for a Python int: a minus sign for negative numbers, then the digits. */
  function IntToString(n: int): (r: string)
  {
    if n < 0 then "-" + NatToString(-n) else NatToString(n)
  }

  /** The value of a string of digits. */
  function StringToInt(s: string): int
  {
    if |s| >= 1 && s[0] == '-' then -(DigitsValue(s[1..]) as int) else DigitsValue(s) as int
  }

  lemma {:induction false} NatToStringRoundTrip(n: nat)
    ensures DigitsValue(NatToString(n)) == n
    decreases n
  {
    var r := NatToString(n);
    if n < 10 {
      CharDigitOfDigitChar(n);
      assert r[..0] == [];
    } else {
      var q, d := n / 10, n % 10;
      NatToStringRoundTrip(q);
      CharDigitOfDigitChar(d);
      assert r[..|r| - 1] == NatToString(q);
      assert r[|r| - 1] == DigitChar(d);
      assert DigitsValue(r) == DigitsValue(NatToString(q)) * 10 + d;
    }
  }

  lemma CharDigitOfDigitChar(d: nat)
    requires d < 10
    ensures CharDigit(DigitChar(d)) == d
  {
  }

  /** `str` of an int never loses information: the digits read back to the number. */
  lemma IntToStringRoundTrip(n: int)
    ensures StringToInt(IntToString(n)) == n
  {
    if n < 0 {
      var m: nat := -n;
      var digits := NatToString(m);
      NatToStringRoundTrip(m);
      assert ("-" + digits)[1..] == digits;
      calc {
        StringToInt(IntToString(n));
        StringToInt("-" + digits);
        -(DigitsValue(digits) as int);
        -(m as int);
      }
    } else {
      var digits := NatToString(n);
      assert digits[0] != '-';
      NatToStringRoundTrip(n);
      assert StringToInt(IntToString(n)) == DigitsValue(digits) as int;
    }
  }

  /** `str` of an int is never a string of question marks, and never contains a space. */
  lemma IntToStringHasNoSpace(n: int)
    ensures ' ' !in IntToString(n)
  {
  }
}
