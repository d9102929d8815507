/**
 * A decimal model of Python's int() applied to a str, and of str() applied
 * to an int, which is the inverse the round-trip lemmas are stated against.
 */
module PyInt {
  import opened Wrappers
  import opened Text

  /**
   * The whitespace int() skips around the digits of an ASCII string: tab,
   * line feed, vertical tab, form feed, carriage return, and space. The
   * separators 0x1C to 0x1F, which str.isspace accepts, are not among them.
   */
  predicate IsSpace(c: char)
  {
    c == ' ' || (9 <= c as int <= 13)
  }

  predicate IsDigit(c: char) { '0' <= c <= '9' }

  predicate AllSpace(s: string) { forall i :: 0 <= i < |s| ==> IsSpace(s[i]) }

  predicate AllDigits(s: string) { forall i :: 0 <= i < |s| ==> IsDigit(s[i]) }

  /** The length of the longest all-whitespace prefix. */
  function Lead(s: string): (k: nat)
    ensures k <= |s|
    ensures forall j :: 0 <= j < k ==> IsSpace(s[j])
    ensures k < |s| ==> !IsSpace(s[k])
  {
    if |s| > 0 && IsSpace(s[0]) then 1 + Lead(s[1..]) else 0
  }

  /** The length of the longest all-whitespace suffix. */
  function Trail(s: string): (k: nat)
    ensures k <= |s|
    ensures forall j :: |s| - k <= j < |s| ==> IsSpace(s[j])
    ensures k < |s| ==> !IsSpace(s[|s| - 1 - k])
  {
    if |s| > 0 && IsSpace(s[|s| - 1]) then 1 + Trail(s[..|s| - 1]) else 0
  }

  /** The string without the whitespace int() skips at either end. */
  function Strip(s: string): string
  {
    var t := s[Lead(s)..];
    t[..|t| - Trail(t)]
  }

  function DigitValue(c: char): nat
    requires IsDigit(c)
  {
    c as int - '0' as int
  }

  /** The value of a run of decimal digits, most significant first. */
  function DigitsValue(s: string): nat
    requires AllDigits(s)
  {
    if |s| == 0 then 0 else 10 * DigitsValue(s[..|s| - 1]) + DigitValue(s[|s| - 1])
  }

  /**
   * int(s): surrounding whitespace is ignored, then an optional sign and at
   * least one decimal digit must make up the rest; anything else is the
   * ValueError, here None.
   */
  function ParseInt(s: string): Option<int>
  {
    var t := Strip(s);
    if |t| > 0 && (t[0] == '+' || t[0] == '-') then
      if |t| > 1 && AllDigits(t[1..]) then
        var m: int := DigitsValue(t[1..]);
        Some(if t[0] == '-' then -m else m)
      else None
    else if |t| > 0 && AllDigits(t) then Some(DigitsValue(t))
    else None
  }

  function DigitChar(d: nat): char
    requires d < 10
  {
    ('0' as int + d) as char
  }

  /** str(n) for n >= 0. */
  function Decimal(n: nat): string
    decreases n
  {
    if n < 10 then [DigitChar(n)] else Decimal(n / 10) + [DigitChar(n % 10)]
  }

  /** str(i). */
  function Str(i: int): string
  {
    if i < 0 then "-" + Decimal(-i) else Decimal(i)
  }

  lemma {:induction false} DecimalDigits(n: nat)
    ensures |Decimal(n)| > 0 && AllDigits(Decimal(n))
    ensures DigitsValue(Decimal(n)) == n
    decreases n
  {
    if n >= 10 {
      DecimalDigits(n / 10);
      var d := Decimal(n);
      assert d[..|d| - 1] == Decimal(n / 10);
    }
  }

  lemma StripPadded(w1: string, t: string, w2: string)
    requires AllSpace(w1) && AllSpace(w2)
    requires |t| > 0 && !IsSpace(t[0]) && !IsSpace(t[|t| - 1])
    ensures Strip(w1 + t + w2) == t
  {
    var s := w1 + t + w2;
    var a := Lead(s);
    assert forall j :: 0 <= j < |w1| ==> s[j] == w1[j];
    assert s[|w1|] == t[0];
    assert a == |w1|;
    var u := s[a..];
    assert u == t + w2;
    var b := Trail(u);
    assert forall j :: |t| <= j < |u| ==> u[j] == w2[j - |t|];
    assert u[|t| - 1] == t[|t| - 1];
    assert b == |w2|;
    assert u[..|u| - b] == t;
  }

  /** str(i) starts and ends with a non-space character, and reads back as i. */
  lemma StrShape(i: int)
    ensures var t := Str(i); |t| > 0 && !IsSpace(t[0]) && !IsSpace(t[|t| - 1])
    ensures var t := Str(i);
      if i < 0 then t[0] == '-' && |t| > 1 && AllDigits(t[1..]) && DigitsValue(t[1..]) == -i
      else AllDigits(t) && DigitsValue(t) == i
  {
    var n: nat := if i < 0 then -i else i;
    DecimalDigits(n);
    var t := Str(i);
    assert t[|t| - 1] == Decimal(n)[|Decimal(n)| - 1];
    if i < 0 {
      assert t[1..] == Decimal(n);
    }
  }

  /** int(str(i)) == i, with any whitespace around the digits. */
  lemma ParseIntStr(i: int, w1: string, w2: string)
    requires AllSpace(w1) && AllSpace(w2)
    ensures ParseInt(w1 + Str(i) + w2) == Some(i)
  {
    StrShape(i);
    StripPadded(w1, Str(i), w2);
  }

  /**
   * A string holding, anywhere, a character that is neither a digit, nor
   * whitespace int() skips, nor a sign is never an integer.
   */
  lemma NotIntWithStray(s: string, i: int)
    requires 0 <= i < |s| && !IsDigit(s[i]) && !IsSpace(s[i]) && s[i] != '+' && s[i] != '-'
    ensures ParseInt(s) == None
  {
    var a := Lead(s);
    var t := s[a..];
    var b := Trail(t);
    var u := t[..|t| - b];
    assert a <= i;
    assert t[i - a] == s[i];
    assert i - a < |t| - b;
    assert u[i - a] == s[i];
    assert u == Strip(s);
    if |u| > 0 && (u[0] == '+' || u[0] == '-') {
      assert i - a > 0;
      assert u[1..][i - a - 1] == s[i];
    } else {
      assert !IsDigit(u[i - a]);
    }
  }

  /** A string holding an ASCII letter anywhere is never an integer. */
  lemma NotIntWithLetter(s: string, i: int)
    requires 0 <= i < |s| && IsAsciiLetter(s[i])
    ensures ParseInt(s) == None
  {
    NotIntWithStray(s, i);
  }

  /** The information separators 0x1C to 0x1F are not padding: int("\x1c42") fails. */
  lemma SeparatorNotInt(s: string, i: int)
    requires 0 <= i < |s| && 28 <= s[i] as int <= 31
    ensures ParseInt(s) == None
  {
    NotIntWithStray(s, i);
  }

  lemma SeparatorExample()
    ensures ParseInt("\U{1C}42") == None
    ensures ParseInt("42\U{1F}") == None
  {
    SeparatorNotInt("\U{1C}42", 0);
    SeparatorNotInt("42\U{1F}", 2);
  }
}
