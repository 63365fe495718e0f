/** The pieces of Python's `str` that the dashboard relies on: `strip()`,
    `split(",")`, `capitalize()` and the decimal rendering of an `int`. */
module Text {

  /** Python's `str.isspace` for one code point. */
  predicate IsSpace(c: char) {
    var n := c as int;
    (0x09 <= n <= 0x0D) || (0x1C <= n <= 0x20) || n == 0x85 || n == 0xA0 ||
    n == 0x1680 || (0x2000 <= n <= 0x200A) || n == 0x2028 || n == 0x2029 ||
    n == 0x202F || n == 0x205F || n == 0x3000
  }

  predicate AllSpace(s: string) {
    forall i :: 0 <= i < |s| ==> IsSpace(s[i])
  }

  /** Number of leading white-space characters of `s`. */
  function LeadingSpace(s: string): (k: nat)
    ensures k <= |s|
    ensures forall i :: 0 <= i < k ==> IsSpace(s[i])
    ensures k < |s| ==> !IsSpace(s[k])
  {
    if s == [] || !IsSpace(s[0]) then 0
    else 1 + LeadingSpace(s[1..])
  }

  /** Number of trailing white-space characters of `s`. */
  function TrailingSpace(s: string): (k: nat)
    ensures k <= |s|
    ensures forall i :: |s| - k <= i < |s| ==> IsSpace(s[i])
    ensures k < |s| ==> !IsSpace(s[|s| - 1 - k])
  {
    if s == [] || !IsSpace(s[|s| - 1]) then 0
    else 1 + TrailingSpace(s[..|s| - 1])
  }

  /** Python's `s.lstrip()`: `s` without its leading white space. */
  function StripLeft(s: string): (r: string)
    ensures |r| <= |s|
    ensures r == [] || !IsSpace(r[0])
  {
    s[LeadingSpace(s)..]
  }

  /** Python's `s.rstrip()`: `s` without its trailing white space. */
  function StripRight(s: string): (r: string)
    ensures |r| <= |s|
    ensures r == [] || !IsSpace(r[|r| - 1])
  {
    s[..|s| - TrailingSpace(s)]
  }

  /** Python's `s.strip()`: `s` without leading and trailing white space. */
  function Strip(s: string): (r: string)
    ensures r == [] || (!IsSpace(r[0]) && !IsSpace(r[|r| - 1]))
    ensures r == [] <==> AllSpace(s)
  {
    StripBlank(s);
    StripRight(StripLeft(s))
  }

  /** Nothing is left once both ends are stripped exactly when the text is
      all white space. */
  lemma StripBlank(s: string)
    ensures StripRight(StripLeft(s)) == [] <==> AllSpace(s)
  {
    var i := LeadingSpace(s);
    var l := s[i..];
    var r := StripRight(l);
    if r == [] {
      assert TrailingSpace(l) == |l|;
      assert s == s[..i] + l;
      AllSpaceAppend(s[..i], l);
    } else {
      assert r[0] == s[i];
    }
  }

  /** `strip` removes exactly the white space around the text and keeps the
      middle as it is: the result is a slice of `s` with only white space
      before and after it. */
  lemma StripSlice(s: string)
    ensures exists i, j :: 0 <= i <= j <= |s| && Strip(s) == s[i..j] && AllSpace(s[..i]) && AllSpace(s[j..])
  {
    var i, j := StripBounds(s);
  }

  /** Where the text that `strip` keeps begins and ends in `s`. */
  lemma StripBounds(s: string) returns (i: nat, j: nat)
    ensures i <= j <= |s| && Strip(s) == s[i..j]
    ensures AllSpace(s[..i]) && AllSpace(s[j..])
  {
    i := LeadingSpace(s);
    var l := s[i..];
    j := |s| - TrailingSpace(l);
    assert StripLeft(s) == l;
    assert StripRight(l) == l[..j - i];
    assert l[..j - i] == s[i..j];
    assert s[j..] == l[j - i..];
  }

  lemma AllSpaceAppend(a: string, b: string)
    ensures AllSpace(a + b) <==> AllSpace(a) && AllSpace(b)
  {
    assert forall k :: 0 <= k < |a| ==> (a + b)[k] == a[k];
    assert forall k :: 0 <= k < |b| ==> (a + b)[|a| + k] == b[k];
  }

  /** Stripping a stripped string changes nothing. */
  lemma StripIdempotent(s: string)
    ensures Strip(Strip(s)) == Strip(s)
  {
    var r := Strip(s);
    if r != [] {
      assert LeadingSpace(r) == 0;
      assert StripLeft(r) == r;
      assert TrailingSpace(r) == 0;
      assert StripRight(r) == r;
    }
  }

  /** Python's `s.split(sep)`: the pieces between occurrences of `sep`,
      including empty ones; there is always at least one piece. */
  function Split(s: string, sep: char): (r: seq<string>)
    ensures |r| >= 1
    ensures forall i :: 0 <= i < |r| ==> sep !in r[i]
    ensures forall i, c :: 0 <= i < |r| && c in r[i] ==> c in s
  {
    if s == [] then [""]
    else
      var rest := Split(s[1..], sep);
      assert forall c :: c in s[1..] ==> c in s;
      if s[0] == sep then
        assert forall i :: 0 < i < |[""] + rest| ==> ([""] + rest)[i] == rest[i - 1];
        [""] + rest
      else
        var r := [[s[0]] + rest[0]] + rest[1..];
        assert forall i :: 0 < i < |r| ==> r[i] == rest[i];
        r
  }

  /** Python's `sep.join(parts)`. */
  function Join(parts: seq<string>, sep: char): string
  {
    if parts == [] then ""
    else if |parts| == 1 then parts[0]
    else parts[0] + [sep] + Join(parts[1..], sep)
  }

  /** Joining the pieces of a split gives back the original text. */
  lemma {:induction false} JoinSplit(s: string, sep: char)
    ensures Join(Split(s, sep), sep) == s
  {
    if s != [] {
      var rest := Split(s[1..], sep);
      JoinSplit(s[1..], sep);
      if s[0] == sep {
        assert Split(s, sep) == [""] + rest;
      } else {
        var r := Split(s, sep);
        assert r == [[s[0]] + rest[0]] + rest[1..];
        if |rest| == 1 {
          assert Join(rest, sep) == rest[0];
        } else {
          assert Join(rest, sep) == rest[0] + [sep] + Join(rest[1..], sep);
          assert r[1..] == rest[1..];
        }
      }
    }
  }

  /** Splitting a join of separator-free pieces gives back the pieces. */
  lemma {:induction false} SplitJoin(parts: seq<string>, sep: char)
    requires |parts| >= 1
    requires forall i :: 0 <= i < |parts| ==> sep !in parts[i]
    ensures Split(Join(parts, sep), sep) == parts
  {
    if |parts| == 1 {
      SplitPlain(parts[0], sep);
    } else {
      var tail := Join(parts[1..], sep);
      SplitJoin(parts[1..], sep);
      SplitPrefix(parts[0], tail, sep);
      assert parts == [parts[0]] + parts[1..];
    }
  }

  /** Splitting text that has no separator gives that text as the one piece. */
  lemma {:induction false} SplitPlain(p: string, sep: char)
    requires sep !in p
    ensures Split(p, sep) == [p]
  {
    if p != [] {
      SplitPlain(p[1..], sep);
      assert [p[0]] + p[1..] == p;
    }
  }

  /** A separator-free prefix followed by a separator becomes the first piece. */
  lemma {:induction false} SplitPrefix(p: string, tail: string, sep: char)
    requires sep !in p
    ensures Split(p + [sep] + tail, sep) == [p] + Split(tail, sep)
  {
    if p == [] {
      assert p + [sep] + tail == [sep] + tail;
      assert ([sep] + tail)[1..] == tail;
    } else {
      SplitPrefix(p[1..], tail, sep);
      assert (p + [sep] + tail)[1..] == p[1..] + [sep] + tail;
      assert [p[0]] + p[1..] == p;
    }
  }

  /** ASCII case mapping (characters outside `a`..`z`, `A`..`Z` are unchanged). */
  function Upper(c: char): char {
    if 'a' <= c <= 'z' then (c as int - 32) as char else c
  }

  function Lower(c: char): char {
    if 'A' <= c <= 'Z' then (c as int + 32) as char else c
  }

  function LowerAll(s: string): (r: string)
    ensures |r| == |s|
    ensures forall i :: 0 <= i < |s| ==> r[i] == Lower(s[i])
  {
    seq(|s|, i requires 0 <= i < |s| => Lower(s[i]))
  }

  /** Text already in lower case is left as it is by `LowerAll`. */
  lemma LowerAllLower(s: string)
    requires forall i :: 0 <= i < |s| ==> 'a' <= s[i] <= 'z'
    ensures LowerAll(s) == s
  {
  }

  /** Python's `s.capitalize()`: first character upper case, the rest lower case. */
  function Capitalize(s: string): (r: string)
    ensures |r| == |s|
    ensures s != [] ==> r[0] == Upper(s[0]) && r[1..] == LowerAll(s[1..])
  {
    if s == [] then "" else [Upper(s[0])] + LowerAll(s[1..])
  }

  /** Capitalizing twice is capitalizing once. */
  lemma CapitalizeIdempotent(s: string)
    ensures Capitalize(Capitalize(s)) == Capitalize(s)
  {
  }

  /** Capitalizing ignores the case the text came in. */
  lemma CapitalizeLowerAll(s: string)
    ensures Capitalize(LowerAll(s)) == Capitalize(s)
  {
    if s != [] {
      assert LowerAll(s)[1..] == LowerAll(s[1..]);
    }
  }

  /** Capitalizing keeps the text the same up to case. */
  lemma LowerAllCapitalize(s: string)
    ensures LowerAll(Capitalize(s)) == LowerAll(s)
  {
  }

  function Digit(d: nat): (c: char)
    requires d < 10
    ensures '0' <= c <= '9'
  {
    ('0' as int + d) as char
  }

  /** Python's `str(n)` for a non-negative integer, as in an f-string. */
  function Decimal(n: nat): (r: string)
    ensures |r| >= 1
    ensures forall i :: 0 <= i < |r| ==> '0' <= r[i] <= '9'
    ensures r[0] == '0' ==> n == 0
  {
    if n < 10 then [Digit(n)] else Decimal(n / 10) + [Digit(n % 10)]
  }

  /** The value of a string of decimal digits. */
  function DecimalValue(s: string): nat
    requires forall i :: 0 <= i < |s| ==> '0' <= s[i] <= '9'
  {
    if s == [] then 0
    else DecimalValue(s[..|s| - 1]) * 10 + (s[|s| - 1] as int - '0' as int)
  }

  /** Reading back the decimal rendering of `n` gives `n`. */
  lemma {:induction false} DecimalRoundTrip(n: nat)
    ensures DecimalValue(Decimal(n)) == n
  {
    if n >= 10 {
      DecimalRoundTrip(n / 10);
      var s := Decimal(n);
      assert s[..|s| - 1] == Decimal(n / 10);
    }
  }

  /** Distinct numbers have distinct decimal renderings. */
  lemma DecimalInjective(m: nat, n: nat)
    requires Decimal(m) == Decimal(n)
    ensures m == n
  {
    DecimalRoundTrip(m);
    DecimalRoundTrip(n);
  }
}
