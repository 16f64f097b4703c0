/** String helpers with the meaning Python gives them: decimal formatting
    (`str(n)`, `f"{n:0Wd}"`), `str.zfill`, `str.strip`, `str.startswith`,
    `str.split(sep)`, `str.lower` (ASCII letters) and the `in` test on
    sequences. */
module Text {

  datatype Option<T> = None | Some(value: T)

  // ---------------------------------------------------------------------
  // Decimal digits

  predicate IsDigit(c: char) { '0' <= c <= '9' }

  predicate AllDigits(s: string) { forall i :: 0 <= i < |s| ==> IsDigit(s[i]) }

  function DigitChar(d: nat): (c: char)
    requires d < 10
    ensures IsDigit(c) && c as int - '0' as int == d
  {
    (d + '0' as int) as char
  }

  function DigitValue(c: char): (d: nat)
    requires IsDigit(c)
    ensures d < 10
  {
    c as int - '0' as int
  }

  /** `str(n)` for a natural number: its decimal digits, no leading zero. */
  function Digits(n: nat): (s: string)
    ensures 1 <= |s| && AllDigits(s)
    ensures |s| > 1 ==> s[0] != '0'
  {
    if n < 10 then [DigitChar(n)] else Digits(n / 10) + [DigitChar(n % 10)]
  }

  /** The value of a string of decimal digits (Python's `int(s)` on digits). */
  function ParseNat(s: string): nat
    requires AllDigits(s)
  {
    if s == [] then 0 else ParseNat(s[..|s| - 1]) * 10 + DigitValue(s[|s| - 1])
  }

  function Pow10(k: nat): (p: nat)
    ensures p >= 1
  {
    if k == 0 then 1 else 10 * Pow10(k - 1)
  }

  lemma {:induction false} ParseDigits(n: nat)
    ensures ParseNat(Digits(n)) == n
  {
    if n >= 10 {
      var s := Digits(n);
      assert s[..|s| - 1] == Digits(n / 10);
      ParseDigits(n / 10);
    }
  }

  /** A number below 10^w has at most w digits. */
  lemma {:induction false} DigitsLength(n: nat, w: nat)
    requires 1 <= w && n < Pow10(w)
    ensures |Digits(n)| <= w
  {
    if n >= 10 {
      assert w >= 2;
      DigitsLength(n / 10, w - 1);
    }
  }

  /** `c * k`: k copies of c. */
  function Repeat(c: char, k: nat): (r: string)
    ensures |r| == k && forall i :: 0 <= i < k ==> r[i] == c
  {
    seq(k, _ => c)
  }

  /** Leading zeros do not change the value of a digit string. */
  lemma {:induction false} ParseLeadingZeros(k: nat, s: string)
    requires AllDigits(s)
    ensures AllDigits(Repeat('0', k) + s)
    ensures ParseNat(Repeat('0', k) + s) == ParseNat(s)
    decreases |s|
  {
    var t := Repeat('0', k) + s;
    if s == [] {
      ParseZeros(k);
      assert t == Repeat('0', k);
    } else {
      assert t[..|t| - 1] == Repeat('0', k) + s[..|s| - 1];
      ParseLeadingZeros(k, s[..|s| - 1]);
    }
  }

  lemma {:induction false} ParseZeros(k: nat)
    ensures AllDigits(Repeat('0', k)) && ParseNat(Repeat('0', k)) == 0
  {
    if k > 0 {
      assert Repeat('0', k)[..k - 1] == Repeat('0', k - 1);
      ParseZeros(k - 1);
    }
  }

  /** Left padding of s with c up to width w (s itself when already that long). */
  function PadLeft(s: string, w: nat, c: char): (r: string)
    ensures |r| == if |s| >= w then |s| else w
    ensures r[|r| - |s|..] == s
    ensures forall i :: 0 <= i < |r| - |s| ==> r[i] == c
  {
    if |s| >= w then s else Repeat(c, w - |s|) + s
  }

  /** Python's `f"{n:0{w}d}"` (and `str(n)` when w is 0): an optional minus
      sign, then the decimal digits of |n| padded with zeros so that sign and
      digits together take at least w characters. */
  function FormatInt(n: int, w: nat): string
  {
    if n < 0 then "-" + PadLeft(Digits(-n), if w == 0 then 0 else w - 1, '0')
    else PadLeft(Digits(n), w, '0')
  }

  /** A non-negative number below 10^w is printed with exactly w digits, and
      the digits read back as the number. */
  lemma FormatFixedWidth(n: nat, w: nat)
    requires 1 <= w && n < Pow10(w)
    ensures |FormatInt(n, w)| == w && AllDigits(FormatInt(n, w))
    ensures ParseNat(FormatInt(n, w)) == n
  {
    DigitsLength(n, w);
    ParseDigits(n);
    var d := Digits(n);
    assert FormatInt(n, w) == PadLeft(d, w, '0');
    if |d| < w {
      assert PadLeft(d, w, '0') == Repeat('0', w - |d|) + d;
      ParseLeadingZeros(w - |d|, d);
    }
  }

  /** `str(n)` of a natural number reads back as n. */
  lemma FormatPlain(n: nat)
    ensures FormatInt(n, 0) == Digits(n) && ParseNat(FormatInt(n, 0)) == n
  {
    ParseDigits(n);
  }

  /** A formatted number reads back as itself: the digits of a non-negative
      number, or a minus sign followed by the digits of its magnitude. */
  lemma FormatIntReads(n: int, w: nat)
    ensures FormatInt(n, w) != []
    ensures n >= 0 ==> AllDigits(FormatInt(n, w)) && ParseNat(FormatInt(n, w)) == n
    ensures n < 0 ==> FormatInt(n, w)[0] == '-' && AllDigits(FormatInt(n, w)[1..]) &&
                      ParseNat(FormatInt(n, w)[1..]) == -n
  {
    if n < 0 {
      var k := if w == 0 then 0 else w - 1;
      PaddedDigitsRead(-n, k);
      assert FormatInt(n, w)[1..] == PadLeft(Digits(-n), k, '0');
    } else {
      PaddedDigitsRead(n, w);
    }
  }

  /** The digits of m, padded with zeros to width k, read back as m. */
  lemma PaddedDigitsRead(m: nat, k: nat)
    ensures AllDigits(PadLeft(Digits(m), k, '0'))
    ensures ParseNat(PadLeft(Digits(m), k, '0')) == m
  {
    var d := Digits(m);
    ParseDigits(m);
    if |d| < k {
      assert PadLeft(d, k, '0') == Repeat('0', k - |d|) + d;
      ParseLeadingZeros(k - |d|, d);
    }
  }

  /** Different numbers are formatted differently, whatever the width. */
  lemma FormatIntInjective(a: int, b: int, w: nat)
    ensures FormatInt(a, w) == FormatInt(b, w) ==> a == b
  {
    FormatIntReads(a, w);
    FormatIntReads(b, w);
  }

  /** A number of k digits is below 10^k. */
  lemma {:induction false} ParseNatBound(s: string)
    requires AllDigits(s)
    ensures ParseNat(s) < Pow10(|s|)
    decreases |s|
  {
    if s != [] {
      ParseNatBound(s[..|s| - 1]);
    }
  }

  /** Digits without a superfluous leading zero, as `str(n)` writes them. */
  predicate Canonical(s: string)
  {
    s != [] && AllDigits(s) && (|s| > 1 ==> s[0] != '0')
  }

  /** Canonical digits are `str` of the number they denote, so two
      canonical strings with the same value are the same string. */
  lemma {:induction false} CanonicalDigits(s: string)
    requires Canonical(s)
    ensures Digits(ParseNat(s)) == s
    decreases |s|
  {
    if |s| > 1 {
      var t := s[..|s| - 1];
      assert t[0] == s[0];
      CanonicalDigits(t);
      var n := ParseNat(s);
      assert ParseNat(t) >= 1;
      assert n / 10 == ParseNat(t) && n % 10 == DigitValue(s[|s| - 1]);
      assert s == t + [s[|s| - 1]];
    }
  }

  /** Python's `s.zfill(w)`: zeros are inserted after a leading sign, or at
      the front, until the string is w characters long. */
  function Zfill(s: string, w: nat): (r: string)
    ensures |r| == if |s| >= w then |s| else w
    ensures |s| >= w ==> r == s
    ensures |s| < w && s != [] && (s[0] == '+' || s[0] == '-') ==>
              r == [s[0]] + Repeat('0', w - |s|) + s[1..]
    ensures |s| < w && (s == [] || (s[0] != '+' && s[0] != '-')) ==>
              r == Repeat('0', w - |s|) + s
  {
    if |s| >= w then s
    else if s != [] && (s[0] == '+' || s[0] == '-') then [s[0]] + Repeat('0', w - |s|) + s[1..]
    else Repeat('0', w - |s|) + s
  }

  /** Padding a digit string with zfill keeps its value. */
  lemma ZfillKeepsValue(s: string, w: nat)
    requires AllDigits(s)
    ensures AllDigits(Zfill(s, w)) && ParseNat(Zfill(s, w)) == ParseNat(s)
  {
    if |s| < w {
      ParseLeadingZeros(w - |s|, s);
    }
  }

  // ---------------------------------------------------------------------
  // Prefixes, search, case

  predicate StartsWith<T(==)>(s: seq<T>, p: seq<T>) { |p| <= |s| && s[..|p|] == p }

  predicate EndsWith<T(==)>(s: seq<T>, p: seq<T>) { |p| <= |s| && s[|s| - |p|..] == p }

  lemma StartsWithConcat<T>(a: seq<T>, b: seq<T>)
    ensures StartsWith(a + b, a)
  {
    assert (a + b)[..|a|] == a;
  }

  lemma EndsWithConcat<T>(a: seq<T>, b: seq<T>)
    ensures EndsWith(a + b, b)
  {
    assert (a + b)[|a|..] == b;
  }

  lemma StartsWithExtend<T>(s: seq<T>, p: seq<T>, t: seq<T>)
    requires StartsWith(s, p)
    ensures StartsWith(s + t, p)
  {
    assert (s + t)[..|p|] == s[..|p|];
  }

  /** A path built as a directory ending in '/' followed by a name starts
      with the directory and ends with '/' and the name. */
  lemma DirectoryAndName(dir: string, name: string)
    requires dir != [] && dir[|dir| - 1] == '/'
    ensures StartsWith(dir + name, dir) && EndsWith(dir + name, "/" + name)
  {
    assert (dir + name)[..|dir|] == dir;
    assert (dir + name)[|dir| - 1..] == "/" + name;
  }

  /** needle occurs in haystack at offset i. */
  predicate OccursAt<T(==)>(haystack: seq<T>, needle: seq<T>, i: int)
  {
    0 <= i && i + |needle| <= |haystack| && haystack[i..i + |needle|] == needle
  }

  /** Python's `needle in haystack` on strings and bytes, written as the
      left-to-right search it performs. */
  predicate Contains<T(==)>(haystack: seq<T>, needle: seq<T>)
    decreases |haystack|
  {
    StartsWith(haystack, needle) || (haystack != [] && Contains(haystack[1..], needle))
  }

  /** The search finds the needle exactly when it occurs at some offset. */
  lemma {:induction false} ContainsIff<T>(haystack: seq<T>, needle: seq<T>)
    ensures Contains(haystack, needle) <==> exists i :: OccursAt(haystack, needle, i)
    decreases |haystack|
  {
    if StartsWith(haystack, needle) {
      assert OccursAt(haystack, needle, 0);
    }
    if haystack != [] {
      ContainsIff(haystack[1..], needle);
      if Contains(haystack[1..], needle) {
        var i :| OccursAt(haystack[1..], needle, i);
        assert haystack[i + 1..i + 1 + |needle|] == haystack[1..][i..i + |needle|];
        assert OccursAt(haystack, needle, i + 1);
      }
      if exists i :: OccursAt(haystack, needle, i) {
        var i :| OccursAt(haystack, needle, i);
        if i > 0 {
          assert haystack[1..][i - 1..i - 1 + |needle|] == haystack[i..i + |needle|];
          assert OccursAt(haystack[1..], needle, i - 1);
        }
      }
    } else if exists i :: OccursAt(haystack, needle, i) {
      var i :| OccursAt(haystack, needle, i);
      assert StartsWith(haystack, needle);
    }
  }

  function LowerChar(c: char): char
  {
    if 'A' <= c <= 'Z' then (c as int + 32) as char else c
  }

  /** `s.lower()` restricted to ASCII letters. */
  function Lower(s: string): (r: string)
    ensures |r| == |s|
    ensures forall i :: 0 <= i < |s| ==> r[i] == LowerChar(s[i])
  {
    seq(|s|, i requires 0 <= i < |s| => LowerChar(s[i]))
  }

  // ---------------------------------------------------------------------
  // Whitespace stripping

  /** The characters for which Python's `str.isspace` holds. */
  predicate IsSpace(c: char)
  {
    c == ' ' || ('\t' <= c <= '\r') || ('\U{1C}' <= c <= '\U{1F}') ||
    c == '\U{85}' || c == '\U{A0}' || c == '\U{1680}' ||
    ('\U{2000}' <= c <= '\U{200A}') || c == '\U{2028}' || c == '\U{2029}' ||
    c == '\U{202F}' || c == '\U{205F}' || c == '\U{3000}'
  }

  /** Index of the first non-space character of s at or after i. */
  function SkipSpaceForward(s: string, i: nat): (k: nat)
    requires i <= |s|
    ensures i <= k <= |s|
    ensures forall j :: i <= j < k ==> IsSpace(s[j])
    ensures k < |s| ==> !IsSpace(s[k])
    decreases |s| - i
  {
    if i < |s| && IsSpace(s[i]) then SkipSpaceForward(s, i + 1) else i
  }

  /** Index just past the last non-space character of s[lo..j]. */
  function SkipSpaceBackward(s: string, lo: nat, j: nat): (k: nat)
    requires lo <= j <= |s|
    ensures lo <= k <= j
    ensures forall i :: k <= i < j ==> IsSpace(s[i])
    ensures k > lo ==> !IsSpace(s[k - 1])
    decreases j
  {
    if j > lo && IsSpace(s[j - 1]) then SkipSpaceBackward(s, lo, j - 1) else j
  }

  /** Python's `s.strip()`: s without its leading and trailing whitespace. */
  function Strip(s: string): string
  {
    var a := SkipSpaceForward(s, 0);
    s[a..SkipSpaceBackward(s, a, |s|)]
  }

  /** Strip removes exactly a run of leading and a run of trailing
      whitespace, and what it keeps neither starts nor ends with whitespace. */
  lemma StripSpec(s: string)
    ensures exists a, b :: 0 <= a <= b <= |s| && Strip(s) == s[a..b] &&
              (forall i :: 0 <= i < a ==> IsSpace(s[i])) &&
              (forall i :: b <= i < |s| ==> IsSpace(s[i]))
    ensures Strip(s) != [] ==> !IsSpace(Strip(s)[0]) && !IsSpace(Strip(s)[|Strip(s)| - 1])
  {
    var a := SkipSpaceForward(s, 0);
    var b := SkipSpaceBackward(s, a, |s|);
    assert Strip(s) == s[a..b];
  }

  /** Stripping twice is stripping once. */
  lemma StripIdempotent(s: string)
    ensures Strip(Strip(s)) == Strip(s)
  {
    StripSpec(s);
    var r := Strip(s);
    if r != [] {
      assert SkipSpaceForward(r, 0) == 0;
      assert SkipSpaceBackward(r, 0, |r|) == |r|;
    }
  }

  // ---------------------------------------------------------------------
  // Splitting and joining on a separator character

  function Count(s: string, c: char): nat
  {
    if s == [] then 0 else (if s[0] == c then 1 else 0) + Count(s[1..], c)
  }

  /** Python's `s.split(sep)` for a one-character separator: the pieces
      between separators, empty ones included ("" gives [""]). */
  function Split(s: string, sep: char): (parts: seq<string>)
    ensures |parts| >= 1
  {
    if s == [] then [""]
    else
      var rest := Split(s[1..], sep);
      if s[0] == sep then [""] + rest else [[s[0]] + rest[0]] + rest[1..]
  }

  /** `sep.join(parts)` */
  function Join(parts: seq<string>, sep: char): string
    requires |parts| >= 1
  {
    if |parts| == 1 then parts[0] else parts[0] + [sep] + Join(parts[1..], sep)
  }

  /** Split yields one more piece than there are separators. */
  lemma {:induction false} SplitCount(s: string, sep: char)
    ensures |Split(s, sep)| == Count(s, sep) + 1
  {
    if s != [] {
      SplitCount(s[1..], sep);
    }
  }

  /** A string without the separator splits into itself alone. */
  lemma {:induction false} SplitWithoutSeparator(a: string, sep: char)
    requires sep !in a
    ensures Split(a, sep) == [a]
  {
    if a != [] {
      SplitWithoutSeparator(a[1..], sep);
      assert [a[0]] + a[1..] == a;
    }
  }

  /** Splitting at the first separator gives the text before it, then the
      pieces of the rest. */
  lemma {:induction false} SplitAtFirst(a: string, b: string, sep: char)
    requires sep !in a
    ensures Split(a + [sep] + b, sep) == [a] + Split(b, sep)
  {
    var s := a + [sep] + b;
    if a == [] {
      assert s[0] == sep && s[1..] == b;
    } else {
      assert s[0] == a[0] && s[1..] == a[1..] + [sep] + b;
      SplitAtFirst(a[1..], b, sep);
      assert [a[0]] + a[1..] == a;
    }
  }

  /** Splitting the join of pieces free of the separator gives the pieces
      back. */
  lemma {:induction false} SplitJoin(parts: seq<string>, sep: char)
    requires |parts| >= 1
    requires forall k :: 0 <= k < |parts| ==> sep !in parts[k]
    ensures Split(Join(parts, sep), sep) == parts
    decreases |parts|
  {
    if |parts| == 1 {
      SplitWithoutSeparator(parts[0], sep);
    } else {
      SplitJoin(parts[1..], sep);
      SplitAtFirst(parts[0], Join(parts[1..], sep), sep);
      assert [parts[0]] + parts[1..] == parts;
    }
  }

  /** Joining the pieces of a split with the separator gives the string back. */
  lemma {:induction false} JoinSplit(s: string, sep: char)
    ensures Join(Split(s, sep), sep) == s
  {
    if s != [] {
      JoinSplit(s[1..], sep);
      var rest := Split(s[1..], sep);
      var parts := Split(s, sep);
      if s[0] == sep {
        assert parts == [""] + rest;
        assert parts[1..] == rest;
        assert Join(parts, sep) == "" + [sep] + Join(rest, sep);
      } else if |rest| == 1 {
        assert parts == [[s[0]] + rest[0]];
      } else {
        assert parts[0] == [s[0]] + rest[0];
        assert parts[1..] == rest[1..];
        assert Join(parts, sep) == [s[0]] + (rest[0] + [sep] + Join(rest[1..], sep));
      }
    }
  }

  /** Position of the first c in s. */
  function IndexOf(s: string, c: char): (k: nat)
    requires c in s
    ensures k < |s| && s[k] == c
    ensures forall j :: 0 <= j < k ==> s[j] != c
  {
    if s[0] == c then 0 else 1 + IndexOf(s[1..], c)
  }

  /** Python's `s.split(c, 1)[1]`: what follows the first c. */
  function AfterFirst(s: string, c: char): string
    requires c in s
  {
    s[IndexOf(s, c) + 1..]
  }

  /** After a prefix whose only c is its last character, AfterFirst gives
      what follows the prefix. */
  lemma AfterPrefix(s: string, p: string, c: char)
    requires StartsWith(s, p) && p != [] && p[|p| - 1] == c && c !in p[..|p| - 1]
    ensures c in s && AfterFirst(s, c) == s[|p|..]
  {
    assert s[|p| - 1] == p[|p| - 1];
  }
}
