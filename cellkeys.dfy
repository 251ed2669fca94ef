/**
 * The grid-cell key of the tilemap dictionary: `str(x) + ';' + str(y)`.
 * The parser is the key's inverse; the round trip makes the key injective,
 * so two distinct cells never share a dictionary entry.
 */
module CellKeys {
  import opened Common

  predicate IsDigit(c: char) { '0' <= c <= '9' }

  predicate AllDigits(s: string) { forall i :: 0 <= i < |s| ==> IsDigit(s[i]) }

  function DigitChar(d: nat): (c: char)
    requires d < 10
    ensures IsDigit(c)
  {
    ('0' as int + d) as char
  }

  function DigitValue(c: char): (d: nat)
    requires IsDigit(c)
    ensures d < 10 && DigitChar(d) == c
  {
    c as int - '0' as int
  }

  /** Python's `str(n)` for a non-negative integer: decimal digits, no leading zeros. */
  function NatToString(n: nat): (s: string)
    ensures |s| > 0 && AllDigits(s)
    decreases n
  {
    if n < 10 then [DigitChar(n)] else NatToString(n / 10) + [DigitChar(n % 10)]
  }

  /** Python's `str(i)` for any integer. */
  function IntToString(i: int): string
  {
    if i < 0 then "-" + NatToString(-i) else NatToString(i)
  }

  /** The dictionary key of grid cell (x, y). */
  function Key(x: int, y: int): string
  {
    IntToString(x) + ";" + IntToString(y)
  }

  function ParseNat(s: string): nat
    requires AllDigits(s)
    decreases |s|
  {
    if s == [] then 0 else ParseNat(s[..|s| - 1]) * 10 + DigitValue(s[|s| - 1])
  }

  function ParseInt(s: string): Option<int>
  {
    if |s| > 1 && s[0] == '-' && AllDigits(s[1..]) then Some(0 - ParseNat(s[1..]) as int)
    else if |s| > 0 && AllDigits(s) then Some(ParseNat(s))
    else None
  }

  /** Index of the first `c` in `s`, or `|s|` when there is none. */
  function IndexOf(s: string, c: char): (i: nat)
    ensures i <= |s|
    ensures forall j :: 0 <= j < i ==> s[j] != c
    ensures i < |s| ==> s[i] == c
  {
    if s == [] then 0 else if s[0] == c then 0 else 1 + IndexOf(s[1..], c)
  }

  /** Reads a key back: the text before the first ';' and the text after it. */
  function ParseKey(s: string): Option<(int, int)>
  {
    var i := IndexOf(s, ';');
    if i == |s| then None
    else match (ParseInt(s[..i]), ParseInt(s[i + 1..]))
      case (Some(x), Some(y)) => Some((x, y))
      case _ => None
  }

  lemma {:induction false} ParseNatToString(n: nat)
    ensures ParseNat(NatToString(n)) == n
    decreases n
  {
    var s := NatToString(n);
    if n >= 10 {
      assert s[..|s| - 1] == NatToString(n / 10);
      ParseNatToString(n / 10);
    }
  }

  lemma ParseIntToString(i: int)
    ensures ParseInt(IntToString(i)) == Some(i)
  {
    if i < 0 {
      var s := IntToString(i);
      assert s[1..] == NatToString(-i);
      ParseNatToString(-i);
    } else {
      var s := NatToString(i);
      assert s[0] != '-' by { assert IsDigit(s[0]); }
      ParseNatToString(i);
    }
  }

  /** `IntToString` never contains the separator. */
  lemma NoSeparator(i: int)
    ensures ';' !in IntToString(i)
  {
    var s := IntToString(i);
    if i < 0 {
      var t := NatToString(-i);
      assert s == "-" + t;
      forall j | 0 <= j < |s| ensures s[j] != ';' {
        if j > 0 { assert s[j] == t[j - 1] && IsDigit(t[j - 1]); }
      }
    } else {
      forall j | 0 <= j < |s| ensures s[j] != ';' { assert IsDigit(s[j]); }
    }
  }

  /** Round trip: every integer pair is read back from its key, negative values included. */
  lemma KeyRoundTrip(x: int, y: int)
    ensures ParseKey(Key(x, y)) == Some((x, y))
  {
    var sx, sy := IntToString(x), IntToString(y);
    var k := Key(x, y);
    NoSeparator(x);
    assert k[|sx|] == ';';
    assert forall j :: 0 <= j < |sx| ==> k[j] == sx[j];
    assert IndexOf(k, ';') == |sx|;
    assert k[..|sx|] == sx;
    assert k[|sx| + 1..] == sy;
    ParseIntToString(x);
    ParseIntToString(y);
  }

  /** Distinct cells have distinct keys. */
  lemma KeyInjective(x1: int, y1: int, x2: int, y2: int)
    requires Key(x1, y1) == Key(x2, y2)
    ensures x1 == x2 && y1 == y2
  {
    KeyRoundTrip(x1, y1);
    KeyRoundTrip(x2, y2);
  }
}
