/** The pieces of Python's text semantics that the three hash formats are
    parsed and rendered with: str.startswith, str.find / str.rfind, slicing
    with clamped bounds, negative-start suffixes, the built-in int() on base-10
    text, and the "%d" / "%02d" renderings of an integer.  Only ASCII digits and
    ASCII whitespace are modelled. */
module PyText {
  import opened Wrappers

  /** s.startswith(p) */
  predicate StartsWith(s: string, p: string) {
    |p| <= |s| && s[..|p|] == p
  }

  /** s.find(c, start): the lowest index at or after start holding c, or -1. */
  function Find(s: string, c: char, start: nat): (r: int)
    ensures r == -1 <==> forall j :: start <= j < |s| ==> s[j] != c
    ensures r != -1 ==> start <= r < |s| && s[r] == c
    ensures r != -1 ==> forall j :: start <= j < r ==> s[j] != c
    decreases |s| - start
  {
    if start >= |s| then -1
    else if s[start] == c then start
    else Find(s, c, start + 1)
  }

  /** s.rfind(c, start): the highest index at or after start holding c, or -1. */
  function RFind(s: string, c: char, start: nat): (r: int)
    ensures r == -1 <==> forall j :: start <= j < |s| ==> s[j] != c
    ensures r != -1 ==> start <= r < |s| && s[r] == c
    ensures r != -1 ==> forall j :: r < j < |s| ==> s[j] != c
    decreases |s|
  {
    if |s| <= start then -1
    else if s[|s| - 1] == c then |s| - 1
    else RFind(s[..|s| - 1], c, start)
  }

  /** s[i:j] for non-negative bounds: a bound past the end is clamped to the
      end, and a range with j <= i is empty. */
  function Slice(s: string, i: nat, j: nat): (r: string)
    ensures i <= j <= |s| ==> r == s[i..j]
    ensures i <= |s| <= j ==> r == s[i..]
    ensures j <= i || |s| <= i ==> r == []
  {
    var hi := if j <= |s| then j else |s|;
    if hi <= i then [] else s[i..hi]
  }

  /** s[-n:] for n >= 1: the last n characters, or all of s when it is shorter. */
  function Tail(s: string, n: nat): (r: string)
    requires n >= 1
    ensures |r| == if |s| < n then |s| else n
    ensures s == s[..|s| - |r|] + r
  {
    if |s| < n then s else s[|s| - n..]
  }

  /** s.index(c): the first position of c in s. */
  function IndexOf(s: string, c: char): (i: nat)
    requires c in s
    ensures i < |s| && s[i] == c
    ensures forall j :: 0 <= j < i ==> s[j] != c
  {
    if s[0] == c then 0 else 1 + IndexOf(s[1..], c)
  }

  predicate IsDigit(c: char) {
    '0' <= c <= '9'
  }

  predicate AllDigits(s: string) {
    forall i :: 0 <= i < |s| ==> IsDigit(s[i])
  }

  predicate IsAscii(s: string) {
    forall i :: 0 <= i < |s| ==> s[i] as int < 128
  }

  function DigitChar(d: nat): (c: char)
    requires d < 10
    ensures IsDigit(c)
  {
    ('0' as int + d) as char
  }

  /** The value of a string of decimal digits (leading zeros allowed). */
  function DigitsValue(s: string): nat
    requires AllDigits(s)
    decreases |s|
  {
    if s == [] then 0 else 10 * DigitsValue(s[..|s| - 1]) + (s[|s| - 1] as int - '0' as int)
  }

  /** The decimal rendering of a natural number, as unicode(n) and "%d" % n
      give it: digits only, with no leading zero. */
  function NatStr(n: nat): (r: string)
    ensures r != [] && AllDigits(r) && DigitsValue(r) == n
    ensures |r| > 1 ==> r[0] != '0'
  {
    if n < 10 then [DigitChar(n)]
    else
      var high := NatStr(n / 10);
      assert (high + [DigitChar(n % 10)])[..|high|] == high;
      high + [DigitChar(n % 10)]
  }

  /** unicode(n) and "%d" % n for any integer: a minus sign exactly for
      negative values, then the digits of the magnitude. */
  function IntStr(n: int): (r: string)
    ensures r != [] && (r[0] == '-' <==> n < 0)
  {
    if n < 0 then "-" + NatStr(-n) else NatStr(n)
  }

  /** "%02d" % n: zero-padded to width two, the sign counting in the width. */
  function Pad2(n: int): string {
    if 0 <= n < 10 then "0" + NatStr(n) else IntStr(n)
  }

  /** The ASCII characters that Python 2's unicode int() skips as whitespace:
      space, \t, \n, \v, \f, \r and the separators \x1c to \x1f. */
  predicate IsSpace(c: char) {
    c == ' ' || '\t' <= c <= '\r' || 0x1c <= c as int <= 0x1f
  }

  function StripLeft(s: string): string
    decreases |s|
  {
    if s != [] && IsSpace(s[0]) then StripLeft(s[1..]) else s
  }

  function StripRight(s: string): string
    decreases |s|
  {
    if s != [] && IsSpace(s[|s| - 1]) then StripRight(s[..|s| - 1]) else s
  }

  function Strip(s: string): string {
    StripRight(StripLeft(s))
  }

  /** Python 2's int(s) on text: surrounding whitespace is ignored, an optional
      sign is allowed and may be followed by whitespace, then one or more decimal
      digits. None is the ValueError. A plain digit string reads as its value. */
  function ParseInt(s: string): (r: Option<int>)
    ensures s != [] && AllDigits(s) ==> r == Some(DigitsValue(s))
  {
    assert s != [] && AllDigits(s) ==> Strip(s) == s by {
      if s != [] && AllDigits(s) {
        StripNoSpace(s);
      }
    }
    var t := Strip(s);
    if |t| > 0 && (t[0] == '+' || t[0] == '-') then
      var u := StripLeft(t[1..]);
      if |u| > 0 && AllDigits(u) then
        var v: int := DigitsValue(u);
        Some(if t[0] == '-' then -v else v)
      else None
    else if |t| > 0 && AllDigits(t) then Some(DigitsValue(t))
    else None
  }

  /** The bytes of an ASCII string, as str.encode("ascii") gives them. */
  function Ascii(s: string): (b: seq<bv8>)
    requires IsAscii(s)
    ensures |b| == |s|
  {
    seq(|s|, i requires 0 <= i < |s| => s[i] as int as bv8)
  }

  lemma DigitsAreAscii(s: string)
    requires AllDigits(s)
    ensures IsAscii(s) && '$' !in s
  {
  }

  lemma StripNoSpace(s: string)
    requires s != [] && !IsSpace(s[0]) && !IsSpace(s[|s| - 1])
    ensures Strip(s) == s
  {
  }

  /** int() reads back every integer that unicode() / "%d" writes. */
  lemma ParseIntStr(n: int)
    ensures ParseInt(IntStr(n)) == Some(n)
  {
    var t := IntStr(n);
    StripNoSpace(t);
    if n < 0 {
      assert t[1..] == NatStr(-n);
    }
  }

  /** "%02d" of a value in [0, 99] is two digits that int() reads back. */
  lemma ParsePad2(n: int)
    requires 0 <= n < 100
    ensures |Pad2(n)| == 2 && AllDigits(Pad2(n))
    ensures ParseInt(Pad2(n)) == Some(n)
  {
    var t := Pad2(n);
    StripNoSpace(t);
    if n < 10 {
      assert t == ['0', DigitChar(n)];
      assert t[..1] == "0";
      assert DigitsValue(t[..1]) == 0;
      assert DigitsValue(t) == n;
    } else {
      assert NatStr(n) == NatStr(n / 10) + [DigitChar(n % 10)];
    }
  }

  /** s.rfind(c, start) is i when s[i] is c and nothing after it is. */
  lemma RFindAt(s: string, c: char, start: nat, i: nat)
    requires start <= i < |s| && s[i] == c && c !in s[i + 1..]
    ensures RFind(s, c, start) == i
  {
  }

  /** A string with exactly one occurrence of c splits around it, the way
      str.split(c) into two parts does. */
  lemma SplitOnce(s: string, c: char, before: string, after: string)
    requires s == before + [c] + after && c !in before && c !in after
    ensures Find(s, c, 0) == |before| && Find(s, c, |before| + 1) == -1
    ensures s[..|before|] == before && s[|before| + 1..] == after
  {
    var n := |before|;
    assert forall j :: 0 <= j < n ==> s[j] == before[j];
    assert s[n] == c;
    assert forall j :: n < j < |s| ==> s[j] == after[j - n - 1];
    var i := Find(s, c, 0);
    assert i == n;
    assert Find(s, c, n + 1) == -1;
    assert s[..n] == before;
    assert s[n + 1..] == after;
  }

  /** The text up to a found separator, the separator, and the rest make up s. */
  lemma SplitAtFound(s: string, c: char, sep: nat)
    requires sep < |s| && s[sep] == c
    ensures s == s[..sep] + [c] + s[sep + 1..]
  {
  }

  lemma SplitPrefix(s: string, p: string)
    requires StartsWith(s, p)
    ensures s == p + s[|p|..]
  {
  }

  /** s[:n] + s[n:] == s. */
  lemma SliceSplit(s: string, n: nat)
    ensures s == Slice(s, 0, n) + Slice(s, n, |s|)
  {
  }

  /** Slicing a concatenation at the length of its first part. */
  lemma SliceConcat(a: string, b: string)
    ensures Slice(a + b, 0, |a|) == a && Slice(a + b, |a|, |a + b|) == b
  {
  }
}
