/**
 * The small pieces of JavaScript semantics the generator leans on:
 * truthiness of optional strings, `Array.prototype.join`, `Array.filter`
 * and `Array.from(new Set(xs))`.
 */
module Strings {
  import opened Wrappers

  /** JavaScript truthiness of an optional string: absent and empty are both falsy. */
  predicate Truthy(o: Option<string>) {
    o.Some? && o.value != ""
  }

  /** `o || fallback` for an optional string. */
  function OrElse(o: Option<string>, fallback: string): (r: string)
    ensures Truthy(o) ==> r == o.value
    ensures !Truthy(o) ==> r == fallback
  {
    if Truthy(o) then o.value else fallback
  }

  predicate StartsWith(s: string, prefix: string) {
    |prefix| <= |s| && s[..|prefix|] == prefix
  }

  predicate EndsWith(s: string, suffix: string) {
    |suffix| <= |s| && s[|s| - |suffix|..] == suffix
  }

  /** A concatenation starts with its left part and ends with its right part. */
  lemma ConcatAffixes(a: string, b: string)
    ensures StartsWith(a + b, a) && EndsWith(a + b, b)
  {
    assert (a + b)[..|a|] == a;
    assert (a + b)[|a|..] == b;
  }

  /** A string ending in `suffix` agrees with it on the last `|suffix|` characters. */
  lemma CharFromEnd(s: string, suffix: string, k: nat)
    requires EndsWith(s, suffix) && 1 <= k <= |suffix|
    ensures s[|s| - k] == suffix[|suffix| - k]
  {
    assert s[|s| - k] == s[|s| - |suffix|..][|suffix| - k];
  }

  /** `parts.join(sep)`: the parts with `sep` between neighbours, `""` for no parts. */
  function Join(parts: seq<string>, sep: string): string
  {
    if |parts| == 0 then ""
    else if |parts| == 1 then parts[0]
    else parts[0] + sep + Join(parts[1..], sep)
  }

  /** Every part preceded by `sep`. */
  function Prefixed(parts: seq<string>, sep: string): string
  {
    if |parts| == 0 then "" else sep + parts[0] + Prefixed(parts[1..], sep)
  }

  lemma {:induction false} JoinNonEmpty(parts: seq<string>, sep: string)
    requires |parts| > 0
    ensures Join(parts, sep) == parts[0] + Prefixed(parts[1..], sep)
  {
    if |parts| == 1 {
      assert parts[1..] == [];
    } else {
      JoinNonEmpty(parts[1..], sep);
      assert parts[1..][1..] == parts[2..];
    }
  }

  /**
   * Joining a list that starts with the empty string puts `sep` in front of
   * every remaining part: this is how a modifier list seeded with `''`
   * turns into a `.a.b.c` chain.
   */
  lemma {:induction false} JoinAfterEmpty(parts: seq<string>, sep: string)
    ensures Join([""] + parts, sep) == Prefixed(parts, sep)
  {
    var all := [""] + parts;
    if |parts| == 0 {
      assert all == [""];
    } else {
      assert all[1..] == parts;
      JoinNonEmpty(parts, sep);
      assert Join(all, sep) == "" + sep + Join(parts, sep);
    }
  }

  lemma {:induction false} PrefixedConcat(a: seq<string>, b: seq<string>, sep: string)
    ensures Prefixed(a + b, sep) == Prefixed(a, sep) + Prefixed(b, sep)
  {
    if |a| == 0 {
      assert a + b == b;
    } else {
      assert (a + b)[1..] == a[1..] + b;
      PrefixedConcat(a[1..], b, sep);
    }
  }

  /** `xs.filter(p)`. */
  function Filter<T(!new)>(xs: seq<T>, p: T -> bool): (r: seq<T>)
    ensures |r| <= |xs|
    ensures forall x :: x in r <==> x in xs && p(x)
  {
    if |xs| == 0 then []
    else if p(xs[0]) then [xs[0]] + Filter(xs[1..], p)
    else Filter(xs[1..], p)
  }

  lemma {:induction false} FilterConcat<T(!new)>(xs: seq<T>, ys: seq<T>, p: T -> bool)
    ensures Filter(xs + ys, p) == Filter(xs, p) + Filter(ys, p)
  {
    if |xs| == 0 {
      assert xs + ys == ys;
    } else {
      assert (xs + ys)[0] == xs[0];
      assert (xs + ys)[1..] == xs[1..] + ys;
      FilterConcat(xs[1..], ys, p);
    }
  }

  /** Filtering one element keeps it iff it satisfies `p`; with `FilterConcat` this fixes every result, order and repeats included. */
  lemma FilterSingle<T(!new)>(x: T, p: T -> bool)
    ensures Filter([x], p) == if p(x) then [x] else []
  {
    assert [x][1..] == [];
  }

  /** Filtering twice by the same predicate is filtering once. */
  lemma {:induction false} FilterIdempotent<T(!new)>(xs: seq<T>, p: T -> bool)
    ensures Filter(Filter(xs, p), p) == Filter(xs, p)
  {
    if |xs| > 0 {
      FilterIdempotent(xs[1..], p);
      if p(xs[0]) {
        var r := [xs[0]] + Filter(xs[1..], p);
        assert r[0] == xs[0] && r[1..] == Filter(xs[1..], p);
      }
    }
  }

  predicate NoDuplicates<T(==)>(xs: seq<T>) {
    forall i, j :: 0 <= i < j < |xs| ==> xs[i] != xs[j]
  }

  /** Position of the first occurrence of `x` in `xs`. */
  function IndexOf<T(==)>(xs: seq<T>, x: T): (k: nat)
    requires x in xs
    ensures k < |xs| && xs[k] == x
    ensures forall j :: 0 <= j < k ==> xs[j] != x
  {
    if xs[0] == x then 0 else 1 + IndexOf(xs[1..], x)
  }

  /** The elements of `r` appear in the order of their first occurrence in `xs`. */
  predicate FirstOccurrenceOrder<T(==,!new)>(xs: seq<T>, r: seq<T>)
    requires forall x :: x in r ==> x in xs
  {
    forall i, j :: 0 <= i < j < |r| ==> IndexOf(xs, r[i]) < IndexOf(xs, r[j])
  }

  lemma {:induction false} IndexOfPrefix<T>(xs: seq<T>, n: nat, x: T)
    requires n <= |xs| && x in xs[..n]
    ensures IndexOf(xs, x) == IndexOf(xs[..n], x)
  {
    assert xs[IndexOf(xs[..n], x)] == x;
  }

  /**
   * `Array.from(new Set(xs))`: every element of `xs` once, in order of
   * first occurrence.
   */
  function Dedup<T(==,!new)>(xs: seq<T>): (r: seq<T>)
    ensures forall x :: x in r <==> x in xs
    ensures NoDuplicates(r)
    ensures FirstOccurrenceOrder(xs, r)
  {
    if |xs| == 0 then []
    else
      var init := xs[..|xs| - 1];
      var last := xs[|xs| - 1];
      var r := Dedup(init);
      assert xs == init + [last];
      DedupStep(init, last, r);
      if last in r then r else r + [last]
  }

  /** Appending one element to `xs` extends its de-duplication by that element, unless it is already there. */
  lemma DedupStep<T(!new)>(init: seq<T>, last: T, r: seq<T>)
    requires forall x :: x in r <==> x in init
    requires NoDuplicates(r)
    requires FirstOccurrenceOrder(init, r)
    ensures var xs := init + [last];
            var r' := if last in r then r else r + [last];
            && (forall x :: x in r' <==> x in xs)
            && NoDuplicates(r')
            && FirstOccurrenceOrder(xs, r')
  {
    var xs := init + [last];
    var n := |xs| - 1;
    assert init == xs[..n];
    if last in r {
      forall i, j | 0 <= i < j < |r| ensures IndexOf(xs, r[i]) < IndexOf(xs, r[j]) {
        IndexOfPrefix(xs, n, r[i]);
        IndexOfPrefix(xs, n, r[j]);
      }
    } else {
      var r' := r + [last];
      assert IndexOf(xs, last) == n;
      forall i, j | 0 <= i < j < |r'| ensures r'[i] != r'[j] && IndexOf(xs, r'[i]) < IndexOf(xs, r'[j]) {
        assert r'[i] == r[i] && r[i] in r;
        IndexOfPrefix(xs, n, r[i]);
        if j < |r| {
          assert r'[j] == r[j];
          IndexOfPrefix(xs, n, r[j]);
        }
      }
    }
  }
}
