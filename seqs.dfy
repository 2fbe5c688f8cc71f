/** Order-preserving filtering of column-name sequences: the shape of pandas'
    `drop(..., errors="ignore")`, of `select_dtypes(...).columns` and of the
    comprehension `[col for col in df.columns if col != "model_name"]`. */
module Seqs {

  /** No element occurs twice (stated element by element, so that the
      verifier only unfolds it where a proof asks for it). */
  predicate NoDuplicates<T(==)>(xs: seq<T>) {
    |xs| == 0 || (xs[0] !in xs[1..] && NoDuplicates(xs[1..]))
  }

  /** The positional reading: no two positions hold the same element. */
  lemma {:induction false} NoDuplicatesIndex<T>(xs: seq<T>)
    ensures NoDuplicates(xs) <==> forall i, j | 0 <= i < j < |xs| :: xs[i] != xs[j]
    decreases |xs|
  {
    if |xs| > 0 {
      var tail := xs[1..];
      NoDuplicatesIndex(tail);
      if NoDuplicates(xs) {
        forall i, j | 0 <= i < j < |xs| ensures xs[i] != xs[j] {
          assert xs[j] == tail[j - 1];
          if i > 0 {
            assert xs[i] == tail[i - 1];
          }
        }
      }
      if forall i, j | 0 <= i < j < |xs| :: xs[i] != xs[j] {
        forall k | 0 <= k < |tail| ensures tail[k] != xs[0] {
          assert tail[k] == xs[k + 1];
        }
        forall i, j | 0 <= i < j < |tail| ensures tail[i] != tail[j] {
          assert tail[i] == xs[i + 1] && tail[j] == xs[j + 1];
        }
      }
    }
  }

  /** Names that differ pairwise in length or first letter are distinct. */
  lemma DistinctByShape(xs: seq<string>)
    requires forall k | 0 <= k < |xs| :: |xs[k]| > 0
    requires forall i, j | 0 <= i < j < |xs| :: |xs[i]| != |xs[j]| || xs[i][0] != xs[j][0]
    ensures NoDuplicates(xs)
  {
    DistinctElements(xs);
  }

  /** The prefix of length `k + 1` extends the prefix of length `k` by
      element `k`. */
  lemma PrefixStep<T>(xs: seq<T>, k: nat)
    requires k < |xs|
    ensures xs[..k + 1][..k] == xs[..k] && xs[..k + 1][k] == xs[k]
    ensures xs[..k + 1] == xs[..k] + [xs[k]]
  {
  }

  /** A non-empty sequence is its front followed by its last element. */
  lemma FrontLast<T>(xs: seq<T>)
    requires xs != []
    ensures xs == xs[..|xs| - 1] + [xs[|xs| - 1]]
  {
  }

  /** The positional reading is enough to establish the property. */
  lemma DistinctElements(xs: seq<string>)
    requires forall i, j | 0 <= i < j < |xs| :: xs[i] != xs[j]
    ensures NoDuplicates(xs)
  {
    NoDuplicatesIndex(xs);
  }

  /** A prefix of a duplicate-free sequence is duplicate-free, and the next
      element does not occur in it. */
  lemma NoDuplicatesPrefix<T>(xs: seq<T>, k: nat)
    requires NoDuplicates(xs) && k <= |xs|
    ensures NoDuplicates(xs[..k])
    ensures k < |xs| ==> xs[k] !in xs[..k]
  {
    NoDuplicatesIndex(xs);
    NoDuplicatesIndex(xs[..k]);
  }

  /** The elements of `xs` that satisfy `p`, in the order of `xs`. */
  function Filter(xs: seq<string>, p: string -> bool): (r: seq<string>)
    ensures |r| <= |xs|
    ensures forall x :: x in r <==> x in xs && p(x)
  {
    if xs == [] then []
    else if p(xs[0]) then [xs[0]] + Filter(xs[1..], p)
    else Filter(xs[1..], p)
  }

  /** `xs` with every element of `ys` removed; an element of `ys` that does
      not occur in `xs` is simply ignored. */
  function Without(xs: seq<string>, ys: seq<string>): (r: seq<string>)
    ensures forall x :: x in r <==> x in xs && x !in ys
  {
    Filter(xs, x => x !in ys)
  }

  /** Filtering commutes with concatenation: the relative order of the kept
      elements is the order they had. */
  lemma {:induction false} FilterAppend(a: seq<string>, b: seq<string>, p: string -> bool)
    ensures Filter(a + b, p) == Filter(a, p) + Filter(b, p)
  {
    if a == [] {
      assert a + b == b;
    } else {
      var ab := a + b;
      assert ab[0] == a[0] && ab[1..] == a[1..] + b;
      FilterAppend(a[1..], b, p);
      if p(a[0]) {
        calc {
          Filter(ab, p);
          [a[0]] + Filter(a[1..] + b, p);
          [a[0]] + (Filter(a[1..], p) + Filter(b, p));
          ([a[0]] + Filter(a[1..], p)) + Filter(b, p);
        }
      }
    }
  }

  /** Filtering a duplicate-free sequence leaves it duplicate-free. */
  lemma {:induction false} FilterNoDuplicates(xs: seq<string>, p: string -> bool)
    requires NoDuplicates(xs)
    ensures NoDuplicates(Filter(xs, p))
  {
    if xs != [] {
      FilterNoDuplicates(xs[1..], p);
      assert Filter(xs, p) == if p(xs[0]) then [xs[0]] + Filter(xs[1..], p) else Filter(xs[1..], p);
      assert ([xs[0]] + Filter(xs[1..], p))[1..] == Filter(xs[1..], p);
    }
  }

  /** When every element passes, filtering changes nothing. */
  lemma {:induction false} FilterAll(xs: seq<string>, p: string -> bool)
    requires forall x | x in xs :: p(x)
    ensures Filter(xs, p) == xs
  {
    if xs != [] {
      FilterAll(xs[1..], p);
    }
  }

  /** Removing names commutes with concatenation. */
  lemma WithoutAppend(a: seq<string>, b: seq<string>, ys: seq<string>)
    ensures Without(a + b, ys) == Without(a, ys) + Without(b, ys)
  {
    FilterAppend(a, b, x => x !in ys);
  }

  /** Removing names that are all absent is the identity. */
  lemma WithoutAbsent(xs: seq<string>, ys: seq<string>)
    requires forall y | y in ys :: y !in xs
    ensures Without(xs, ys) == xs
  {
    FilterAll(xs, x => x !in ys);
  }

  /** Two duplicate-free sequences with no element in common concatenate to
      a duplicate-free sequence. */
  lemma {:induction false} AppendNoDuplicates(a: seq<string>, b: seq<string>)
    requires NoDuplicates(a) && NoDuplicates(b)
    requires forall x | x in b :: x !in a
    ensures NoDuplicates(a + b)
    decreases |a|
  {
    if a == [] {
      assert a + b == b;
    } else {
      assert (a + b)[1..] == a[1..] + b;
      AppendNoDuplicates(a[1..], b);
    }
  }

  /** `names` with `n` appended unless it is there already. */
  function AddName(names: seq<string>, n: string): (r: seq<string>)
    requires NoDuplicates(names)
    ensures NoDuplicates(r)
    ensures forall x :: x in r <==> x in names || x == n
  {
    if n in names then names
    else
      AppendNoDuplicates(names, [n]);
      names + [n]
  }
}
