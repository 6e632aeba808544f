/** String operations the controller relies on, written out over `seq<char>`:
    suffix tests, `String.prototype.split`, trimming, the default sort order
    of `Array.prototype.sort` on strings, and decimal rendering of numbers. */
module Text {

  predicate EndsWith(s: string, suffix: string)
  {
    |suffix| <= |s| && s[|s| - |suffix|..] == suffix
  }

  /** `sep` occurs in `t` starting at index `k`. */
  predicate OccursAt(t: string, sep: string, k: int)
  {
    0 <= k && k + |sep| <= |t| && t[k..k + |sep|] == sep
  }

  /** `t` contains no occurrence of `sep`. */
  predicate Free(t: string, sep: string)
  {
    forall k :: 0 <= k <= |t| - |sep| ==> !OccursAt(t, sep, k)
  }

  /** For a one-character separator, being free of it is not containing the character. */
  lemma FreeOfChar(t: string, c: char)
    ensures Free(t, [c]) <==> c !in t
  {
    if c in t {
      var k :| 0 <= k < |t| && t[k] == c;
      assert t[k..k + 1] == [c];
      assert OccursAt(t, [c], k);
    } else {
      forall k | 0 <= k <= |t| - 1 ensures !OccursAt(t, [c], k) {
        assert t[k..k + 1] == [t[k]];
      }
    }
  }

  /** Inverse of `Split`: the parts glued back together with `sep` between them. */
  function Join(parts: seq<string>, sep: string): string
    requires |parts| >= 1
  {
    if |parts| == 1 then parts[0] else parts[0] + sep + Join(parts[1..], sep)
  }

  lemma JoinStartsWithFirst(parts: seq<string>, sep: string)
    requires |parts| >= 1
    ensures parts[0] <= Join(parts, sep)
  {
  }

  /** `s.split(sep)` for a non-empty separator: `s` is cut at every leftmost,
      non-overlapping occurrence of `sep`. The ensures clauses say that the
      parts glue back to `s` and that no part still contains the separator;
      for a separator that can overlap itself ("aaa" cut at "aa") several
      cuttings meet both, and the body picks the leftmost one. `SplitOfJoin`
      pins the result down when no part holds the separator's first
      character. */
  function Split(s: string, sep: string): (parts: seq<string>)
    requires |sep| > 0
    ensures |parts| >= 1
    ensures Join(parts, sep) == s
    ensures forall i :: 0 <= i < |parts| ==> Free(parts[i], sep)
    decreases |s|
  {
    if |s| < |sep| then
      [s]
    else if s[..|sep|] == sep then
      var rest := Split(s[|sep|..], sep);
      assert ([""] + rest)[1..] == rest;
      [""] + rest
    else
      var rest := Split(s[1..], sep);
      JoinStartsWithFirst(rest, sep);
      JoinExtendFirst(s[0], rest, sep);
      FreeExtend(s, sep, rest[0]);
      var parts := [[s[0]] + rest[0]] + rest[1..];
      assert forall i :: 1 <= i < |parts| ==> parts[i] == rest[i];
      parts
  }

  /** Prepending a character to the first part prepends it to the join. */
  lemma JoinExtendFirst(c: char, parts: seq<string>, sep: string)
    requires |parts| >= 1
    ensures Join([[c] + parts[0]] + parts[1..], sep) == [c] + Join(parts, sep)
  {
    var q := [[c] + parts[0]] + parts[1..];
    if |parts| > 1 {
      assert q[1..] == parts[1..];
    }
  }

  /** A prefix of `s` that does not start with `sep` and continues with a
      separator-free string is separator-free. */
  lemma FreeExtend(s: string, sep: string, tail: string)
    requires |sep| > 0 && |s| >= |sep| && s[..|sep|] != sep
    requires [s[0]] + tail <= s && Free(tail, sep)
    ensures Free([s[0]] + tail, sep)
  {
    var first := [s[0]] + tail;
    forall k | OccursAt(first, sep, k)
      ensures false
    {
      if k > 0 {
        assert first[k..k + |sep|] == tail[k - 1..k - 1 + |sep|];
        assert OccursAt(tail, sep, k - 1);
      }
    }
  }

  /** A string free of the separator splits into itself alone. */
  lemma {:induction false} SplitOfFree(s: string, sep: string)
    requires |sep| > 0 && Free(s, sep)
    ensures Split(s, sep) == [s]
    decreases |s|
  {
    if |s| >= |sep| {
      if s[..|sep|] == sep {
        assert OccursAt(s, sep, 0);
        assert false;
      }
      assert Free(s[1..], sep) by {
        forall k | 0 <= k <= |s[1..]| - |sep| ensures !OccursAt(s[1..], sep, k) {
          assert s[1..][k..k + |sep|] == s[k + 1..k + 1 + |sep|];
          assert !OccursAt(s, sep, k + 1);
        }
      }
      SplitOfFree(s[1..], sep);
      assert [s[0]] + s[1..] == s;
    }
  }

  /** A string without the separator's first character is separator-free. */
  lemma FreeOfFirst(t: string, sep: string)
    requires |sep| > 0 && sep[0] !in t
    ensures Free(t, sep)
  {
    forall k | 0 <= k <= |t| - |sep| ensures !OccursAt(t, sep, k) {
      assert t[k..k + |sep|][0] == t[k];
    }
  }

  /** A first part without the separator's first character is cut off
      exactly at the separator that follows it. */
  lemma {:induction false} SplitAfterPart(p: string, sep: string, t: string)
    requires |sep| > 0 && sep[0] !in p
    ensures Split(p + sep + t, sep) == [p] + Split(t, sep)
    decreases |p|
  {
    var s := p + sep + t;
    if |p| == 0 {
      assert s == sep + t && s[..|sep|] == sep && s[|sep|..] == t;
    } else {
      assert s[0] == p[0] != sep[0];
      assert s[..|sep|] != sep;
      assert s[1..] == p[1..] + sep + t;
      SplitAfterPart(p[1..], sep, t);
      assert [s[0]] + p[1..] == p;
    }
  }

  /** `Split` undoes `Join` when no part holds the separator's first character. */
  lemma {:induction false} SplitOfJoin(parts: seq<string>, sep: string)
    requires |sep| > 0 && |parts| >= 1
    requires forall i :: 0 <= i < |parts| ==> sep[0] !in parts[i]
    ensures Split(Join(parts, sep), sep) == parts
    decreases |parts|
  {
    if |parts| == 1 {
      FreeOfFirst(parts[0], sep);
      SplitOfFree(parts[0], sep);
    } else {
      SplitOfJoin(parts[1..], sep);
      SplitAfterPart(parts[0], sep, Join(parts[1..], sep));
      assert [parts[0]] + parts[1..] == parts;
    }
  }

  /** The first index at or after `i` whose character is not space, or `|s|`. */
  function LeadFrom(s: string, isSpace: char -> bool, i: nat): (n: nat)
    requires i <= |s|
    ensures i <= n <= |s|
    ensures forall k :: i <= k < n ==> isSpace(s[k])
    ensures n < |s| ==> !isSpace(s[n])
    decreases |s| - i
  {
    if i == |s| || !isSpace(s[i]) then i else LeadFrom(s, isSpace, i + 1)
  }

  /** The index just after the last non-space character before `j`, or 0. */
  function TrailFrom(s: string, isSpace: char -> bool, j: nat): (n: nat)
    requires j <= |s|
    ensures n <= j
    ensures forall k :: n <= k < j ==> isSpace(s[k])
    ensures n > 0 ==> !isSpace(s[n - 1])
  {
    if j == 0 || !isSpace(s[j - 1]) then j else TrailFrom(s, isSpace, j - 1)
  }

  /** `r` is the slice of `s` starting at `i`, and everything of `s` outside it is space. */
  predicate TrimmedAt(s: string, r: string, i: int, isSpace: char -> bool)
  {
    && 0 <= i <= |s| - |r| && r == s[i..i + |r|]
    && (forall k :: 0 <= k < i ==> isSpace(s[k]))
    && (forall k :: i + |r| <= k < |s| ==> isSpace(s[k]))
  }

  /** Removes leading and trailing characters satisfying `isSpace`: what is
      left is one slice of `s` with only space outside it, empty exactly
      when `s` is all space, and otherwise neither starting nor ending with
      a space. */
  function Trim(s: string, isSpace: char -> bool): (r: string)
    ensures TrimmedAt(s, r, LeadFrom(s, isSpace, 0), isSpace)
    ensures r == [] <==> forall k :: 0 <= k < |s| ==> isSpace(s[k])
    ensures r != [] ==> !isSpace(r[0]) && !isSpace(r[|r| - 1])
  {
    var i := LeadFrom(s, isSpace, 0);
    var j := TrailFrom(s, isSpace, |s|);
    if i < j then s[i..j] else []
  }

  lemma TrimIdempotent(s: string, isSpace: char -> bool)
    ensures Trim(Trim(s, isSpace), isSpace) == Trim(s, isSpace)
  {
    var r := Trim(s, isSpace);
    if r != [] {
      assert LeadFrom(r, isSpace, 0) == 0;
      assert TrailFrom(r, isSpace, |r|) == |r|;
      assert r[0..|r|] == r;
    }
  }

  /** The characters `String.prototype.trim` removes: ECMAScript WhiteSpace
      and LineTerminator code points. */
  predicate IsJsSpace(c: char)
  {
    var n := c as int;
    n == 0x09 || n == 0x0A || n == 0x0B || n == 0x0C || n == 0x0D || n == 0x20
    || n == 0xA0 || n == 0x1680 || (0x2000 <= n <= 0x200A) || n == 0x2028
    || n == 0x2029 || n == 0x202F || n == 0x205F || n == 0x3000 || n == 0xFEFF
  }

  /** `s.trim()` in JavaScript. */
  function JsTrim(s: string): string
  {
    Trim(s, IsJsSpace)
  }

  /** The order `Array.prototype.sort` uses by default on strings:
      lexicographic by character, a proper prefix first. */
  predicate Less(a: string, b: string)
    decreases |a|
  {
    if |a| == 0 then |b| > 0
    else |b| > 0 && (a[0] < b[0] || (a[0] == b[0] && Less(a[1..], b[1..])))
  }

  lemma {:induction false} LessIrreflexive(a: string)
    ensures !Less(a, a)
    decreases |a|
  {
    if |a| > 0 {
      LessIrreflexive(a[1..]);
    }
  }

  lemma {:induction false} LessTransitive(a: string, b: string, c: string)
    requires Less(a, b) && Less(b, c)
    ensures Less(a, c)
    decreases |a|
  {
    if |a| > 0 && a[0] == b[0] && b[0] == c[0] {
      LessTransitive(a[1..], b[1..], c[1..]);
    }
  }

  lemma {:induction false} LessTotal(a: string, b: string)
    requires a != b
    ensures Less(a, b) || Less(b, a)
    decreases |a|
  {
    if |a| > 0 && |b| > 0 && a[0] == b[0] {
      assert a == [a[0]] + a[1..] && b == [b[0]] + b[1..];
      LessTotal(a[1..], b[1..]);
    }
  }

  predicate IsDigit(c: char)
  {
    '0' <= c <= '9'
  }

  function DigitChar(d: nat): char
    requires d < 10
  {
    ['0', '1', '2', '3', '4', '5', '6', '7', '8', '9'][d]
  }

  function DigitValue(c: char): nat
    requires IsDigit(c)
  {
    c as int - '0' as int
  }

  /** The value of a string of decimal digits. */
  function DigitsValue(s: string): nat
    requires forall k :: 0 <= k < |s| ==> IsDigit(s[k])
  {
    if |s| == 0 then 0
    else DigitsValue(s[..|s| - 1]) * 10 + DigitValue(s[|s| - 1])
  }

  /** `String(n)` for a natural number: its shortest decimal digits. */
  function Decimal(n: nat): (r: string)
    ensures |r| >= 1 && (forall k :: 0 <= k < |r| ==> IsDigit(r[k]))
    ensures r[0] == '0' ==> r == "0"
  {
    if n < 10 then [DigitChar(n)] else Decimal(n / 10) + [DigitChar(n % 10)]
  }

  lemma {:induction false} DecimalRoundTrip(n: nat)
    ensures DigitsValue(Decimal(n)) == n
  {
    if n >= 10 {
      var r := Decimal(n);
      assert r[..|r| - 1] == Decimal(n / 10);
      DecimalRoundTrip(n / 10);
    }
  }

  /** `String(i)` for an integer. */
  function IntText(i: int): string
  {
    if i < 0 then "-" + Decimal(-i) else Decimal(i)
  }
}
