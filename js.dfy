/**
 * The JavaScript built-ins the core relies on, stated over Dafny values:
 * `String.prototype.trim`, `split`, `includes`, `toLowerCase` (ASCII part),
 * `parseInt`, `Math.round`, `Array.prototype.slice`, `filter` and `indexOf`,
 * and the decimal rendering of a number inside a template string.
 */
module Js {
  import opened Options

  function Min(a: int, b: int): int { if a <= b then a else b }
  function Max(a: int, b: int): int { if a <= b then b else a }

  // ---------------------------------------------------------------- truthiness of nullable strings

  /** A nullable string is truthy when it is neither null nor "". */
  predicate Truthy(s: Option<string>)
  {
    s.Some? && s.value != ""
  }

  /** `x || null` on a nullable string: "" and null both become null, any other string is kept. */
  function OrNull(x: Option<string>): (r: Option<string>)
    ensures r.None? <==> x == None || x == Some("")
    ensures r.Some? ==> r == x
  {
    if Truthy(x) then x else None
  }

  // ---------------------------------------------------------------- whitespace and trim

  /** The WhiteSpace and LineTerminator code points that `trim` and `parseInt` skip. */
  predicate IsWhitespace(c: char)
  {
    c == '\t' || c == '\n' || c == '\U{000B}' || c == '\U{000C}' || c == '\r' || c == ' '
    || c == '\U{00A0}' || c == '\U{1680}' || ('\U{2000}' <= c <= '\U{200A}')
    || c == '\U{2028}' || c == '\U{2029}' || c == '\U{202F}' || c == '\U{205F}'
    || c == '\U{3000}' || c == '\U{FEFF}'
  }

  /** Every character of `s` is whitespace. */
  predicate Blank(s: string)
  {
    forall i :: 0 <= i < |s| ==> IsWhitespace(s[i])
  }

  /** Every character of a slice of `s` is a character of `s`. */
  lemma SliceChars(s: string, a: nat, b: nat)
    requires a <= b <= |s|
    ensures forall c :: c in s[a..b] ==> c in s
  {
    forall c | c in s[a..b]
      ensures c in s
    {
      var i :| 0 <= i < b - a && s[a..b][i] == c;
      assert s[a + i] == c;
    }
  }

  /** A prefix of the suffix of `s` from `a` is a slice of `s`, and what follows it is the rest of `s`. */
  lemma PrefixOfSuffix(s: string, a: nat, r: string)
    requires a <= |s| && |r| <= |s| - a && r == s[a..][..|r|]
    ensures r == s[a..a + |r|] && s[a..][|r|..] == s[a + |r|..]
  {
  }

  /** How many whitespace characters `s` starts with. */
  function LeadingBlanks(s: string): (n: nat)
    ensures n <= |s|
    ensures forall i :: 0 <= i < n ==> IsWhitespace(s[i])
    ensures n == |s| || !IsWhitespace(s[n])
  {
    if s != [] && IsWhitespace(s[0]) then
      var n := 1 + LeadingBlanks(s[1..]);
      assert forall i :: 1 <= i < n ==> s[i] == s[1..][i - 1];
      n
    else 0
  }

  /** How many whitespace characters `s` ends with. */
  function TrailingBlanks(s: string): (n: nat)
    ensures n <= |s|
    ensures forall i :: |s| - n <= i < |s| ==> IsWhitespace(s[i])
    ensures n == |s| || !IsWhitespace(s[|s| - 1 - n])
  {
    if s != [] && IsWhitespace(s[|s| - 1]) then
      var n := 1 + TrailingBlanks(s[..|s| - 1]);
      assert forall i :: |s| - n <= i < |s| - 1 ==> s[i] == s[..|s| - 1][i];
      n
    else 0
  }

  /** `String.prototype.trimStart`: drops the leading whitespace and nothing else. */
  function TrimStart(s: string): (r: string)
    ensures |r| <= |s|
    ensures r == [] || !IsWhitespace(r[0])
  {
    s[LeadingBlanks(s)..]
  }

  /** `String.prototype.trimEnd`: drops the trailing whitespace and nothing else. */
  function TrimEnd(s: string): (r: string)
    ensures |r| <= |s|
    ensures r == [] || !IsWhitespace(r[|r| - 1])
  {
    s[..|s| - TrailingBlanks(s)]
  }

  /**
   * `String.prototype.trim`: the leading and trailing whitespace dropped; what
   * is left starts and ends with a non-whitespace character (TrimIsSlice and
   * TrimDropsBlank give the rest).
   */
  function Trim(s: string): (r: string)
    ensures r == [] || (!IsWhitespace(r[0]) && !IsWhitespace(r[|r| - 1]))
  {
    var t := TrimStart(s);
    var r := TrimEnd(t);
    assert r != [] ==> r[0] == t[0];
    r
  }

  /** Trimming keeps one contiguous slice of `s`, from its first non-whitespace character. */
  lemma TrimIsSlice(s: string)
    ensures LeadingBlanks(s) + |Trim(s)| <= |s|
    ensures Trim(s) == s[LeadingBlanks(s)..LeadingBlanks(s) + |Trim(s)|]
  {
    var a := LeadingBlanks(s);
    var t := s[a..];
    TrimUnfold(s);
    PrefixOfSuffix(s, a, t[..|t| - TrailingBlanks(t)]);
  }

  lemma TrimUnfold(s: string)
    ensures Trim(s) == s[LeadingBlanks(s)..][..|s[LeadingBlanks(s)..]| - TrailingBlanks(s[LeadingBlanks(s)..])]
  {
  }

  /** Trimming adds no character. */
  lemma TrimChars(s: string)
    ensures forall c :: c in Trim(s) ==> c in s
  {
    TrimIsSlice(s);
    SliceChars(s, LeadingBlanks(s), LeadingBlanks(s) + |Trim(s)|);
  }

  /** Everything before and after the slice that trimming keeps is whitespace. */
  lemma TrimDropsBlank(s: string)
    ensures Blank(s[..LeadingBlanks(s)]) && Blank(s[LeadingBlanks(s) + |Trim(s)|..])
  {
    var a := LeadingBlanks(s);
    var t := s[a..];
    TrimUnfold(s);
    PrefixOfSuffix(s, a, t[..|t| - TrailingBlanks(t)]);
    LeadBlank(s, a);
    TailBlank(t, |Trim(s)|);
  }

  /** The first `a` characters, each whitespace, form a blank prefix. */
  lemma LeadBlank(s: string, a: nat)
    requires a <= |s| && forall i :: 0 <= i < a ==> IsWhitespace(s[i])
    ensures Blank(s[..a])
  {
    forall k | 0 <= k < a
      ensures IsWhitespace(s[..a][k])
    {
      assert s[..a][k] == s[k];
    }
  }

  /** The characters from `b` on, each whitespace, form a blank suffix. */
  lemma TailBlank(t: string, b: nat)
    requires b <= |t| && forall i :: b <= i < |t| ==> IsWhitespace(t[i])
    ensures Blank(t[b..])
  {
    forall k | 0 <= k < |t| - b
      ensures IsWhitespace(t[b..][k])
    {
      assert t[b..][k] == t[b + k];
    }
  }

  /** A string that does not start with whitespace is left as it is by `trimStart`. */
  lemma TrimStartKeeps(s: string)
    requires s == [] || !IsWhitespace(s[0])
    ensures TrimStart(s) == s
  {
    assert LeadingBlanks(s) == 0;
  }

  /** A string without whitespace at either end is left as it is. */
  lemma TrimKeepsTrimmed(s: string)
    requires s == [] || (!IsWhitespace(s[0]) && !IsWhitespace(s[|s| - 1]))
    ensures Trim(s) == s
  {
  }

  // ---------------------------------------------------------------- split, join, includes

  /**
   * `s.split(sep)` for a one-character separator: the pieces between
   * separators, in order, including empty pieces ("" splits into [""]).
   */
  function Split(s: string, sep: char): (parts: seq<string>)
    ensures |parts| >= 1
    ensures forall k :: 0 <= k < |parts| ==> sep !in parts[k]
  {
    if s == [] then [[]]
    else
      var rest := Split(s[1..], sep);
      if s[0] == sep then [[]] + rest else [[s[0]] + rest[0]] + rest[1..]
  }

  /** `parts.join(sep)`. */
  function Join(parts: seq<string>, sep: char): string
  {
    if parts == [] then []
    else if |parts| == 1 then parts[0]
    else parts[0] + [sep] + Join(parts[1..], sep)
  }

  /** Splitting loses nothing: joining the pieces back gives the original text. */
  lemma {:induction false} JoinSplit(s: string, sep: char)
    ensures Join(Split(s, sep), sep) == s
  {
    if s != [] {
      var rest := Split(s[1..], sep);
      JoinSplit(s[1..], sep);
      if s[0] != sep {
        var parts := Split(s, sep);
        assert parts == [[s[0]] + rest[0]] + rest[1..];
        if |rest| == 1 {
          assert Join(parts, sep) == [s[0]] + rest[0];
        } else {
          assert Join(rest, sep) == rest[0] + [sep] + Join(rest[1..], sep);
          assert parts[1..] == rest[1..];
          assert Join(parts, sep) == ([s[0]] + rest[0]) + [sep] + Join(rest[1..], sep);
        }
      }
    }
  }

  /** A piece without the separator splits into itself. */
  lemma {:induction false} SplitNoSep(p: string, sep: char)
    requires sep !in p
    ensures Split(p, sep) == [p]
  {
    if p != [] {
      SplitNoSep(p[1..], sep);
      assert [p[0]] + p[1..] == p;
    }
  }

  /** A separator after a separator-free piece ends that piece. */
  lemma {:induction false} SplitPrefix(p: string, sep: char, t: string)
    requires sep !in p
    ensures Split(p + [sep] + t, sep) == [p] + Split(t, sep)
  {
    var s := p + [sep] + t;
    if p == [] {
      assert s[0] == sep && s[1..] == t;
    } else {
      assert s[0] == p[0] && s[1..] == p[1..] + [sep] + t;
      SplitPrefix(p[1..], sep, t);
      assert [p[0]] + p[1..] == p;
    }
  }

  /**
   * Joining separator-free pieces and splitting again gives the pieces back:
   * `split` cuts exactly at the separators, keeping every piece, in order.
   */
  lemma {:induction false} SplitJoin(parts: seq<string>, sep: char)
    requires |parts| >= 1 && forall k :: 0 <= k < |parts| ==> sep !in parts[k]
    ensures Split(Join(parts, sep), sep) == parts
  {
    if |parts| == 1 {
      SplitNoSep(parts[0], sep);
    } else {
      SplitJoin(parts[1..], sep);
      SplitPrefix(parts[0], sep, Join(parts[1..], sep));
      assert [parts[0]] + parts[1..] == parts;
    }
  }

  /** `hay.includes(needle)`: some suffix of `hay` starts with `needle`. */
  predicate Contains(hay: string, needle: string)
    decreases |hay|
  {
    needle <= hay || (hay != [] && Contains(hay[1..], needle))
  }

  /** `needle` occurs in `hay` starting at offset i. */
  predicate OccursAt(hay: string, needle: string, i: nat)
  {
    i + |needle| <= |hay| && hay[i..i + |needle|] == needle
  }

  /** An occurrence at some offset makes `includes` hold. */
  lemma {:induction false} OccursContains(hay: string, needle: string, i: nat)
    requires OccursAt(hay, needle, i)
    ensures Contains(hay, needle)
  {
    if i > 0 {
      assert hay[1..][i - 1..i - 1 + |needle|] == needle;
      OccursContains(hay[1..], needle, i - 1);
    } else {
      assert needle <= hay;
    }
  }

  /** `includes` holds exactly when `needle` occurs at some offset of `hay`. */
  lemma {:induction false} ContainsAt(hay: string, needle: string)
    ensures Contains(hay, needle) <==> exists i: nat :: OccursAt(hay, needle, i)
    decreases |hay|
  {
    if exists i: nat :: OccursAt(hay, needle, i) {
      var i: nat :| OccursAt(hay, needle, i);
      OccursContains(hay, needle, i);
    }
    if Contains(hay, needle) {
      if needle <= hay {
        assert OccursAt(hay, needle, 0);
      } else {
        ContainsAt(hay[1..], needle);
        var i: nat :| OccursAt(hay[1..], needle, i);
        assert hay[i + 1..i + 1 + |needle|] == hay[1..][i..i + |needle|];
        assert OccursAt(hay, needle, i + 1);
      }
    }
  }

  // ---------------------------------------------------------------- case, filter, indexOf

  /** The ASCII part of `toLowerCase`. */
  function LowerChar(c: char): char
  {
    if 'A' <= c <= 'Z' then (c as int + 32) as char else c
  }

  function ToLower(s: string): (r: string)
    ensures |r| == |s| && forall i :: 0 <= i < |s| ==> r[i] == LowerChar(s[i])
  {
    seq(|s|, i requires 0 <= i < |s| => LowerChar(s[i]))
  }

  /** `Array.prototype.filter`: the elements satisfying `keep`, in their original order. */
  function Filter<T(==)>(s: seq<T>, keep: T -> bool): (r: seq<T>)
    ensures |r| <= |s|
    ensures forall i :: 0 <= i < |r| ==> r[i] in s && keep(r[i])
    ensures forall i :: 0 <= i < |s| && keep(s[i]) ==> s[i] in r
  {
    if s == [] then []
    else if keep(s[0]) then [s[0]] + Filter(s[1..], keep)
    else Filter(s[1..], keep)
  }

  /** Filtering never repeats an element: what it keeps is a sub-multiset of the input. */
  lemma {:induction false} FilterSubMultiset<T>(s: seq<T>, keep: T -> bool)
    ensures multiset(Filter(s, keep)) <= multiset(s)
  {
    if s != [] {
      FilterSubMultiset(s[1..], keep);
      assert s == [s[0]] + s[1..];
    }
  }

  /** A single element is kept exactly when it passes. */
  lemma FilterSingleton<T>(x: T, keep: T -> bool)
    ensures Filter([x], keep) == if keep(x) then [x] else []
  {
    assert [x][1..] == [];
  }

  /**
   * `filter` works element by element: the kept elements of a concatenation
   * are those of each part, in order. With `FilterSingleton` this fixes the
   * result for every input: the passing elements, each as often as it occurs,
   * in their original order.
   */
  lemma {:induction false} FilterAppend<T>(a: seq<T>, b: seq<T>, keep: T -> bool)
    ensures Filter(a + b, keep) == Filter(a, keep) + Filter(b, keep)
  {
    if a == [] {
      assert a + b == b;
    } else {
      assert (a + b)[0] == a[0];
      assert (a + b)[1..] == a[1..] + b;
      FilterAppend(a[1..], b, keep);
    }
  }

  /** When exactly one element passes, `filter` returns just that element. */
  lemma {:induction false} FilterOne<T>(s: seq<T>, keep: T -> bool, k: nat)
    requires k < |s| && keep(s[k])
    requires forall i :: 0 <= i < |s| && i != k ==> !keep(s[i])
    ensures Filter(s, keep) == [s[k]]
  {
    if k == 0 {
      FilterNone(s[1..], keep);
    } else {
      FilterOne(s[1..], keep, k - 1);
    }
  }

  lemma {:induction false} FilterNone<T>(s: seq<T>, keep: T -> bool)
    requires forall i :: 0 <= i < |s| ==> !keep(s[i])
    ensures Filter(s, keep) == []
  {
    if s != [] {
      FilterNone(s[1..], keep);
    }
  }

  /** `Array.prototype.find`: the first element satisfying `p`, or undefined (None). */
  function Find<T>(s: seq<T>, p: T -> bool): (r: Option<T>)
    ensures r.Some? ==> r.value in s && p(r.value)
    ensures r.None? ==> forall x :: x in s ==> !p(x)
  {
    if s == [] then None
    else if p(s[0]) then Some(s[0])
    else Find(s[1..], p)
  }

  /** `find` returns the first element that satisfies `p`. */
  lemma {:induction false} FindFirst<T>(s: seq<T>, p: T -> bool, k: nat)
    requires k < |s| && p(s[k])
    requires forall i :: 0 <= i < k ==> !p(s[i])
    ensures Find(s, p) == Some(s[k])
  {
    if k > 0 {
      FindFirst(s[1..], p, k - 1);
    }
  }

  /** `Array.prototype.indexOf`: the first position of `x`, or -1. */
  function IndexOf<T(==)>(s: seq<T>, x: T): (r: int)
    ensures -1 <= r < |s|
    ensures r == -1 <==> x !in s
    ensures r >= 0 ==> s[r] == x && forall k :: 0 <= k < r ==> s[k] != x
  {
    if s == [] then -1
    else if s[0] == x then 0
    else var k := IndexOf(s[1..], x); if k == -1 then -1 else k + 1
  }

  // ---------------------------------------------------------------- slice

  /** The position `Array.prototype.slice` makes of an index argument. */
  function SliceIndex(len: nat, k: int): (r: nat)
    ensures r <= len
  {
    if k < 0 then Max(len + k, 0) else Min(k, len)
  }

  /** `s.slice(start, end)`; negative indices count from the end. */
  function Slice<T>(s: seq<T>, start: int, end: int): seq<T>
  {
    var a := SliceIndex(|s|, start);
    var b := SliceIndex(|s|, end);
    if a <= b then s[a..b] else []
  }

  /** `s.slice(-n)`, n > 0, keeps the last min(n, |s|) elements, in order. */
  lemma LastN<T>(s: seq<T>, n: nat)
    requires n > 0
    ensures |Slice(s, -(n as int), |s|)| == Min(n, |s|)
    ensures Slice(s, -(n as int), |s|) == s[|s| - Min(n, |s|)..]
  {
    assert SliceIndex(|s|, -(n as int)) == |s| - Min(n, |s|);
    assert SliceIndex(|s|, |s|) == |s|;
  }

  // ---------------------------------------------------------------- numbers and text

  /** `Math.round`: the nearest integer, halves rounded up. */
  function Round(x: real): (r: int)
    ensures x - 0.5 < r as real <= x + 0.5
  {
    (x + 0.5).Floor
  }

  /** `r` is a whole multiple of 1/scale. */
  predicate OnGrain(r: real, scale: nat)
  {
    (r * (scale as real)).Floor as real == r * (scale as real)
  }

  /**
   * `Math.round(x * scale) / scale`: `x` rounded to 1/scale, a whole multiple
   * of 1/scale within half a step of `x` (the two pin the value down).
   */
  function RoundTo(x: real, scale: nat): (r: real)
    requires scale > 0
    ensures x - 0.5 / scale as real < r <= x + 0.5 / scale as real
    ensures OnGrain(r, scale)
  {
    var sc := scale as real;
    var n := Round(x * sc);
    var r := n as real / sc;
    RoundedBounds(x, sc, n as real);
    QuotientOnGrain(n, scale);
    r
  }

  lemma RoundedBounds(x: real, s: real, n: real)
    requires s > 0.0 && x * s - 0.5 < n <= x * s + 0.5
    ensures x - 0.5 / s < n / s <= x + 0.5 / s
  {
    assert n / s == n * (1.0 / s);
    assert (x * s - 0.5) / s == x - 0.5 / s;
    assert (x * s + 0.5) / s == x + 0.5 / s;
  }

  /**
   * The grain and the half-step band determine the rounded value: any multiple
   * of 1/scale within (x − 0.5/scale, x + 0.5/scale] is `RoundTo(x, scale)`.
   */
  lemma RoundToUnique(x: real, q: real, scale: nat)
    requires scale > 0 && OnGrain(q, scale)
    requires x - 0.5 / scale as real < q <= x + 0.5 / scale as real
    ensures q == RoundTo(x, scale)
  {
    OneOnGrainInBand(x, q, RoundTo(x, scale), scale);
  }

  /** Two values on the grain within half a grain step of the same x are equal. */
  lemma OneOnGrainInBand(x: real, q: real, p: real, scale: nat)
    requires scale > 0 && OnGrain(q, scale) && OnGrain(p, scale)
    requires x - 0.5 / scale as real < q <= x + 0.5 / scale as real
    requires x - 0.5 / scale as real < p <= x + 0.5 / scale as real
    ensures q == p
  {
    var m, n := (q * (scale as real)).Floor, (p * (scale as real)).Floor;
    BandScaled(x, q, scale as real);
    BandScaled(x, p, scale as real);
    IntsInBand(m, n, x * (scale as real) - 0.5);
    MulCancel(q, p, scale as real);
  }

  lemma BandScaled(x: real, q: real, s: real)
    requires s > 0.0 && x - 0.5 / s < q <= x + 0.5 / s
    ensures x * s - 0.5 < q * s <= x * s + 0.5
  {
    assert (x - 0.5 / s) * s == x * s - 0.5;
    assert (x + 0.5 / s) * s == x * s + 0.5;
    assert (x - 0.5 / s) * s < q * s;
    assert q * s <= (x + 0.5 / s) * s;
  }

  lemma QuotientOnGrain(n: int, scale: nat)
    requires scale > 0
    ensures OnGrain(n as real / (scale as real), scale)
  {
    var r := n as real / (scale as real);
    assert r * (scale as real) == n as real;
    assert (n as real).Floor == n;
  }

  lemma MulCancel(q: real, r: real, s: real)
    requires s > 0.0 && q * s == r * s
    ensures q == r
  {
    assert (q - r) * s == 0.0;
  }

  /** Two integers in the same half-open interval of length 1 are equal. */
  lemma IntsInBand(m: int, n: int, lo: real)
    requires lo < m as real <= lo + 1.0 && lo < n as real <= lo + 1.0
    ensures m == n
  {
  }

  /** Rounding never reorders: a larger value never rounds to a smaller one. */
  lemma RoundToMonotone(x: real, y: real, scale: nat)
    requires scale > 0 && x <= y
    ensures RoundTo(x, scale) <= RoundTo(y, scale)
  {
    assert x * (scale as real) <= y * (scale as real);
    RoundMonotone(x * (scale as real), y * (scale as real));
    DivideMonotone(Round(x * (scale as real)) as real, Round(y * (scale as real)) as real, scale as real);
  }

  lemma RoundMonotone(x: real, y: real)
    requires x <= y
    ensures Round(x) <= Round(y)
  {
    assert x + 0.5 <= y + 0.5;
  }

  lemma DivideMonotone(a: real, b: real, s: real)
    requires a <= b && s > 0.0
    ensures a / s <= b / s
  {
    assert a / s == a * (1.0 / s) && b / s == b * (1.0 / s);
    assert (b - a) * (1.0 / s) >= 0.0;
  }

  predicate IsDigit(c: char) { '0' <= c <= '9' }

  function DigitChar(d: nat): (c: char)
    requires d < 10
    ensures IsDigit(c)
  {
    ('0' as int + d) as char
  }

  /** The decimal rendering of a non-negative integer, as a template string shows it. */
  function NatToDecimal(n: nat): (r: string)
    ensures |r| >= 1 && forall i :: 0 <= i < |r| ==> IsDigit(r[i])
    ensures n >= 10 ==> |r| >= 2
    ensures r[0] == '0' ==> n == 0
  {
    if n < 10 then [DigitChar(n)] else NatToDecimal(n / 10) + [DigitChar(n % 10)]
  }

  /** The decimal rendering of any integer. */
  function IntToDecimal(i: int): string
  {
    if i < 0 then "-" + NatToDecimal(-i) else NatToDecimal(i)
  }

  /** The value of `c` as a digit in `radix` (letters either case above 9), or -1. */
  function DigitIn(c: char, radix: nat): (v: int)
    ensures -1 <= v < radix
  {
    var v := if '0' <= c <= '9' then c as int - '0' as int
             else if 'a' <= c <= 'z' then c as int - 'a' as int + 10
             else if 'A' <= c <= 'Z' then c as int - 'A' as int + 10
             else -1;
    if v < radix then v else -1
  }

  /** The value of a string of digits in `radix`. */
  function DigitsValue(ds: string, radix: nat): nat
    requires forall i :: 0 <= i < |ds| ==> DigitIn(ds[i], radix) >= 0
  {
    if ds == [] then 0
    else DigitsValue(ds[..|ds| - 1], radix) * radix + DigitIn(ds[|ds| - 1], radix)
  }

  /** The length of the longest prefix of `s` made of digits in `radix`. */
  function DigitPrefixLength(s: string, radix: nat): (n: nat)
    ensures n <= |s|
    ensures forall i :: 0 <= i < n ==> DigitIn(s[i], radix) >= 0
    ensures n < |s| ==> DigitIn(s[n], radix) < 0
  {
    if s != [] && DigitIn(s[0], radix) >= 0 then 1 + DigitPrefixLength(s[1..], radix) else 0
  }

  /** The longest run of `radix` digits at the start of `body`, read as a number; None if there is none. */
  function ParseDigits(body: string, radix: nat): Option<nat>
  {
    var n := DigitPrefixLength(body, radix);
    if n == 0 then None else Some(DigitsValue(body[..n], radix))
  }

  /** An unsigned `parseInt` body: base 16 after a "0x"/"0X" prefix, base 10 otherwise. */
  function ParseUnsigned(u: string): Option<nat>
  {
    if |u| >= 2 && u[0] == '0' && (u[1] == 'x' || u[1] == 'X') then ParseDigits(u[2..], 16)
    else ParseDigits(u, 10)
  }

  /**
   * `parseInt(s)` without a radix: skip leading whitespace, read an optional
   * sign, then an unsigned body; no digit at all gives NaN (None).
   */
  function ParseInt(s: string): Option<int>
  {
    var t := TrimStart(s);
    if t != [] && t[0] == '-' then
      match ParseUnsigned(t[1..])
      case None => None
      case Some(v) => Some(-(v as int))
    else
      var u := if t != [] && t[0] == '+' then t[1..] else t;
      match ParseUnsigned(u)
      case None => None
      case Some(v) => Some(v as int)
  }

  lemma {:induction false} DecimalValue(n: nat)
    ensures forall i :: 0 <= i < |NatToDecimal(n)| ==> DigitIn(NatToDecimal(n)[i], 10) >= 0
    ensures DigitsValue(NatToDecimal(n), 10) == n
  {
    var r := NatToDecimal(n);
    assert forall i :: 0 <= i < |r| ==> DigitIn(r[i], 10) == r[i] as int - '0' as int;
    if n >= 10 {
      DecimalValue(n / 10);
      assert r[..|r| - 1] == NatToDecimal(n / 10);
    }
  }

  /** Rendering a number and reading it back with `parseInt` is the identity. */
  lemma ParseIntDecimal(n: nat)
    ensures ParseInt(NatToDecimal(n)) == Some(n)
  {
    var r := NatToDecimal(n);
    DecimalValue(n);
    DigitPrefixAll(r, 10);
    assert r[..|r|] == r;
    assert ParseDigits(r, 10) == Some(n);
    assert ParseUnsigned(r) == Some(n);
    assert IsDigit(r[0]);
    TrimStartKeeps(r);
  }

  lemma {:induction false} DigitPrefixAll(s: string, radix: nat)
    requires forall i :: 0 <= i < |s| ==> DigitIn(s[i], radix) >= 0
    ensures DigitPrefixLength(s, radix) == |s|
  {
    if s != [] {
      DigitPrefixAll(s[1..], radix);
    }
  }

  /** Two decimal renderings are equal only for equal numbers. */
  lemma DecimalInjective(m: nat, n: nat)
    requires NatToDecimal(m) == NatToDecimal(n)
    ensures m == n
  {
    DecimalValue(m);
    DecimalValue(n);
  }
}
