/**
 * Small building blocks shared by the flow modules: an Option type, the
 * whitespace that JavaScript's `String.prototype.trim` removes, and the
 * digit strings produced by `Number.prototype.toString(radix)` on
 * non-negative integers.
 */
module Base {

  datatype Option<+T> = None | Some(value: T)

  /** The WhiteSpace and LineTerminator code points of ECMAScript, which `trim` strips. */
  predicate IsWhitespace(c: char)
  {
    || c == '\t' || c == '\n' || c == '\U{000B}' || c == '\U{000C}' || c == '\r'
    || c == ' ' || c == '\U{00A0}' || c == '\U{1680}'
    || ('\U{2000}' <= c <= '\U{200A}')
    || c == '\U{2028}' || c == '\U{2029}' || c == '\U{202F}' || c == '\U{205F}'
    || c == '\U{3000}' || c == '\U{FEFF}'
  }

  /** Every character is whitespace (the empty string included). */
  predicate IsBlank(s: string)
  {
    forall i :: 0 <= i < |s| ==> IsWhitespace(s[i])
  }

  /** `s` with its leading whitespace removed. */
  function TrimStart(s: string): string
  {
    if s == [] || !IsWhitespace(s[0]) then s else TrimStart(s[1..])
  }

  /** `s` with its trailing whitespace removed. */
  function TrimEnd(s: string): string
  {
    if s == [] || !IsWhitespace(s[|s| - 1]) then s else TrimEnd(s[..|s| - 1])
  }

  /**
   * JavaScript `s.trim()`. Its properties are the lemmas below rather than
   * postconditions, so that callers pay for them only where they are used.
   */
  function Trim(s: string): string
  {
    TrimEnd(TrimStart(s))
  }

  /** Trimming the start drops a blank prefix and stops at a non-space. */
  lemma {:induction false} TrimStartFacts(s: string)
    ensures var r := TrimStart(s);
      |r| <= |s| && r == s[|s| - |r|..] && IsBlank(s[..|s| - |r|]) && (r == [] || !IsWhitespace(r[0]))
  {
    if s != [] && IsWhitespace(s[0]) {
      TrimStartFacts(s[1..]);
      var r := TrimStart(s);
      assert s[1..][|s| - 1 - |r|..] == s[|s| - |r|..];
      forall i | 0 <= i < |s| - |r| ensures IsWhitespace(s[i]) {
        if i > 0 {
          assert s[i] == s[1..][..|s| - 1 - |r|][i - 1];
        }
      }
    }
  }

  /** Trimming the end drops a blank suffix and stops at a non-space. */
  lemma {:induction false} TrimEndFacts(s: string)
    ensures var r := TrimEnd(s);
      |r| <= |s| && r == s[..|r|] && IsBlank(s[|r|..]) && (r == [] || !IsWhitespace(r[|r| - 1]))
  {
    if s != [] && IsWhitespace(s[|s| - 1]) {
      var t := s[..|s| - 1];
      TrimEndFacts(t);
      var r := TrimEnd(s);
      assert t[..|r|] == s[..|r|];
      forall i | |r| <= i < |s| ensures IsWhitespace(s[i]) {
        if i < |s| - 1 {
          assert s[i] == t[|r|..][i - |r|];
        }
      }
    }
  }

  /** `s.trim()` is empty exactly for a blank string, and otherwise starts and ends with a non-space. */
  lemma TrimFacts(s: string)
    ensures Trim(s) == [] <==> IsBlank(s)
    ensures Trim(s) != [] ==> !IsWhitespace(Trim(s)[0]) && !IsWhitespace(Trim(s)[|Trim(s)| - 1])
  {
    var t := TrimStart(s);
    TrimStartFacts(s);
    TrimEndFacts(t);
    var r := TrimEnd(t);
    if r == [] {
      assert |t| == 0;
      assert s == s[..|s| - |t|];
    } else {
      assert s[|s| - |t|] == t[0] == r[0];
    }
  }

  /** JavaScript `a || b` on two strings: the empty string is falsy. */
  function OrElse(a: string, b: string): (r: string)
    ensures a != "" ==> r == a
    ensures a == "" ==> r == b
  {
    if a != "" then a else b
  }

  /** The digit character for `d` in bases up to 36: `0`-`9`, then `a`-`z`. */
  function DigitChar(d: nat): (c: char)
    requires d < 36
  {
    if d < 10 then ('0' as int + d) as char else ('a' as int + d - 10) as char
  }

  /** The value of a digit character; the inverse of DigitChar. */
  function DigitValue(c: char): nat
  {
    if '0' <= c <= '9' then c as int - '0' as int
    else if 'a' <= c <= 'z' then c as int - 'a' as int + 10
    else 0
  }

  /** `n.toString(radix)` for a non-negative integer `n`: no sign, no leading zeros. */
  function ToRadix(n: nat, radix: nat): (r: string)
    requires 2 <= radix <= 36
    ensures |r| >= 1
    decreases n
  {
    if n < radix then [DigitChar(n)]
    else
      DivMod(n, radix);
      var q, d := n / radix, n % radix;
      ToRadix(q, radix) + [DigitChar(d)]
  }

  /** Reads a digit string back as a number: the reference for ToRadix. */
  function FromRadix(s: string, radix: nat): nat
  {
    if s == [] then 0 else FromRadix(s[..|s| - 1], radix) * radix + DigitValue(s[|s| - 1])
  }

  lemma DigitRoundTrip(d: nat)
    requires d < 36
    ensures DigitValue(DigitChar(d)) == d
  {
  }

  lemma DivMod(n: nat, radix: nat)
    requires 2 <= radix
    ensures (n / radix) * radix + n % radix == n
    ensures n / radix < n || n == 0
  {
  }

  lemma FromRadixSnoc(s: string, c: char, radix: nat)
    ensures FromRadix(s + [c], radix) == FromRadix(s, radix) * radix + DigitValue(c)
  {
    assert (s + [c])[..|s|] == s;
  }

  lemma RadixDigit(n: nat, radix: nat)
    requires 2 <= radix <= 36 && n < radix
    ensures FromRadix(ToRadix(n, radix), radix) == n
  {
    FromRadixSnoc([], DigitChar(n), radix);
    assert [] + [DigitChar(n)] == ToRadix(n, radix);
    DigitRoundTrip(n);
  }

  /** When the leading digits read back as `n / radix`, the whole digit string reads back as `n`. */
  lemma RadixStep(n: nat, radix: nat)
    requires 2 <= radix <= 36 && n >= radix
    requires FromRadix(ToRadix(n / radix, radix), radix) == n / radix
    ensures FromRadix(ToRadix(n, radix), radix) == n
  {
    var q, m := n / radix, n % radix;
    assert ToRadix(n, radix) == ToRadix(q, radix) + [DigitChar(m)];
    FromRadixSnoc(ToRadix(q, radix), DigitChar(m), radix);
    DigitRoundTrip(m);
    DivMod(n, radix);
  }

  /** Reading back the digits of `n.toString(radix)` gives `n`. */
  lemma {:induction false} RadixRoundTrip(n: nat, radix: nat)
    requires 2 <= radix <= 36
    ensures FromRadix(ToRadix(n, radix), radix) == n
    decreases n
  {
    if n < radix {
      RadixDigit(n, radix);
    } else {
      RadixRoundTrip(n / radix, radix);
      RadixStep(n, radix);
    }
  }

  /** Different numbers get different digit strings. */
  lemma RadixInjective(m: nat, n: nat, radix: nat)
    requires 2 <= radix <= 36
    requires ToRadix(m, radix) == ToRadix(n, radix)
    ensures m == n
  {
    RadixRoundTrip(m, radix);
    RadixRoundTrip(n, radix);
  }

  /** JavaScript `String(n)` for a non-negative integer, as used in template literals. */
  function Decimal(n: nat): (r: string)
    ensures |r| >= 1
  {
    ToRadix(n, 10)
  }

  /** The first `n` parts joined in order. */
  function Concat<T>(parts: seq<seq<T>>, n: nat): seq<T>
    requires n <= |parts|
  {
    if n == 0 then [] else Concat(parts, n - 1) + parts[n - 1]
  }

  /** A join of `n - 1` parts followed by part `n - 1` is the join of `n` parts. */
  lemma ConcatExtend<T>(parts: seq<seq<T>>, n: nat, prefix: seq<T>, last: seq<T>)
    requires 0 < n <= |parts| && prefix == Concat(parts, n - 1) && last == parts[n - 1]
    ensures prefix + last == Concat(parts, n)
  {
  }

  /** Moving the head of a list onto the end of what precedes it. */
  lemma ShiftHead<T>(done: seq<T>, x: T, rest: seq<T>, all: seq<T>)
    requires all == [x] + rest
    ensures done + all == (done + [x]) + rest
  {
  }

  /** An empty join has only empty parts. */
  lemma {:induction false} ConcatEmptyOnlyIf<T>(parts: seq<seq<T>>, n: nat)
    requires n <= |parts| && |Concat(parts, n)| == 0
    ensures forall i :: 0 <= i < n ==> |parts[i]| == 0
  {
    if n > 0 {
      ConcatEmptyOnlyIf(parts, n - 1);
    }
  }

  /** Empty parts join to nothing. */
  lemma {:induction false} ConcatEmptyIf<T>(parts: seq<seq<T>>, n: nat)
    requires n <= |parts| && forall i :: 0 <= i < n ==> |parts[i]| == 0
    ensures |Concat(parts, n)| == 0
  {
    if n > 0 {
      ConcatEmptyIf(parts, n - 1);
    }
  }

  /** Every element of a part occurs in the join. */
  lemma {:induction false} ConcatHas<T>(parts: seq<seq<T>>, n: nat, i: nat, x: T)
    requires i < n <= |parts| && x in parts[i]
    ensures x in Concat(parts, n)
  {
    if i < n - 1 {
      ConcatHas(parts, n - 1, i, x);
    }
  }

  /** Every element of the join comes from one of the parts. */
  lemma {:induction false} ConcatFrom<T>(parts: seq<seq<T>>, n: nat, x: T)
    requires n <= |parts| && x in Concat(parts, n)
    ensures exists i :: 0 <= i < n && x in parts[i]
  {
    if x !in parts[n - 1] {
      ConcatFrom(parts, n - 1, x);
    }
  }

  /** How many of the first `n` elements of `xs` equal `x`. */
  function Count<T(==)>(xs: seq<T>, n: nat, x: T): nat
    requires n <= |xs|
  {
    if n == 0 then 0 else Count(xs, n - 1, x) + if xs[n - 1] == x then 1 else 0
  }

  lemma {:induction false} CountSome<T>(xs: seq<T>, n: nat, x: T)
    requires n <= |xs|
    ensures Count(xs, n, x) > 0 <==> exists j :: 0 <= j < n && xs[j] == x
  {
    if n > 0 {
      CountSome(xs, n - 1, x);
    }
  }

  /** An element is counted more than once exactly when another position holds it too. */
  lemma {:induction false} CountShared<T>(xs: seq<T>, n: nat, k: nat)
    requires k < n <= |xs|
    ensures Count(xs, n, xs[k]) > 1 <==> exists j :: 0 <= j < n && j != k && xs[j] == xs[k]
  {
    if n - 1 == k {
      CountSome(xs, n - 1, xs[k]);
    } else {
      CountShared(xs, n - 1, k);
      if xs[n - 1] == xs[k] {
        CountSome(xs, n - 1, xs[k]);
      }
    }
  }

  /** `s.filter(p)`: the elements satisfying `p`, in their original order. */
  function Filter<T(==)>(s: seq<T>, p: T -> bool): (r: seq<T>)
    ensures |r| <= |s|
    ensures forall i :: 0 <= i < |r| ==> r[i] in s && p(r[i])
    ensures forall i :: 0 <= i < |s| && p(s[i]) ==> s[i] in r
    ensures IsSubsequence(r, s)
  {
    if s == [] then []
    else
      var rest := Filter(s[1..], p);
      assert IsSubsequence(rest, s[1..]);
      if p(s[0]) then [s[0]] + rest else rest
  }

  /** `filter` keeps every element satisfying `p` as many times as it occurs, and no other. */
  lemma {:induction false} FilterCount<T>(s: seq<T>, p: T -> bool, x: T)
    ensures multiset(Filter(s, p))[x] == if p(x) then multiset(s)[x] else 0
  {
    if s != [] {
      FilterCount(s[1..], p, x);
      assert s == [s[0]] + s[1..];
    }
  }

  /** A test every element passes keeps the whole list. */
  lemma {:induction false} FilterKeepsAll<T>(s: seq<T>, p: T -> bool)
    requires forall k :: 0 <= k < |s| ==> p(s[k])
    ensures Filter(s, p) == s
  {
    if s != [] {
      FilterKeepsAll(s[1..], p);
    }
  }

  /** `r` is `s` with some elements left out and the others kept in order. */
  predicate IsSubsequence<T(==)>(r: seq<T>, s: seq<T>)
  {
    if r == [] then true
    else if s == [] then false
    else if r[0] == s[0] then IsSubsequence(r[1..], s[1..])
    else IsSubsequence(r, s[1..])
  }
}
