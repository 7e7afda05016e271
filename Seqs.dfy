/**
 * The two collection operations the plugin leans on: keeping the members of
 * an ordered collection that pass a test (jQuery's `.filter(fn)`), and
 * dropping the members that occur in another collection (jQuery's `.not(c)`).
 * Both keep the order of the collection they start from.
 */
module Seqs {

  /** The members of `s` for which `keep` holds, in their order in `s`. */
  function Filter<T(!new)>(s: seq<T>, keep: T -> bool): (r: seq<T>)
    ensures |r| <= |s|
    ensures forall x :: x in r <==> x in s && keep(x)
    ensures forall x :: multiset(r)[x] == if keep(x) then multiset(s)[x] else 0
  {
    if s == [] then []
    else
      assert s == [s[0]] + s[1..];
      (if keep(s[0]) then [s[0]] else []) + Filter(s[1..], keep)
  }

  /** The members of `s` that do not occur in `drop`, in their order in `s`. */
  function Without<T(==,!new)>(s: seq<T>, drop: seq<T>): (r: seq<T>)
    ensures |r| <= |s|
    ensures forall x :: x in r <==> x in s && x !in drop
    ensures forall x :: multiset(r)[x] == if x in drop then 0 else multiset(s)[x]
  {
    if s == [] then []
    else
      assert s == [s[0]] + s[1..];
      (if s[0] in drop then [] else [s[0]]) + Without(s[1..], drop)
  }

  /**
   * Filtering a collection made of two parts filters each part and keeps
   * the parts in their order: together with the one-member case, `Filter`
   * keeps the order of `s`.
   */
  lemma {:induction false} FilterConcat<T(!new)>(a: seq<T>, b: seq<T>, keep: T -> bool)
    ensures Filter(a + b, keep) == Filter(a, keep) + Filter(b, keep)
    ensures |a| == 1 ==> Filter(a, keep) == if keep(a[0]) then a else []
  {
    if a == [] {
      assert a + b == b;
    } else {
      FilterConcat(a[1..], b, keep);
      FilterConcatStep(a, b, keep);
    }
  }

  /** One step of `FilterConcat`: from the tail of `a` to the whole of `a`. */
  lemma FilterConcatStep<T(!new)>(a: seq<T>, b: seq<T>, keep: T -> bool)
    requires a != []
    requires Filter(a[1..] + b, keep) == Filter(a[1..], keep) + Filter(b, keep)
    ensures Filter(a + b, keep) == Filter(a, keep) + Filter(b, keep)
  {
    var head := if keep(a[0]) then [a[0]] else [];
    ConcatUncons(a, b);
    FilterUncons(a + b, keep);
    FilterUncons(a, keep);
    ConcatRegroup(Filter(a + b, keep), Filter(a, keep), head, Filter(a[1..], keep), Filter(b, keep));
  }

  /** The same for `Without`: dropping members keeps the order of the rest. */
  lemma {:induction false} WithoutConcat<T(!new)>(a: seq<T>, b: seq<T>, drop: seq<T>)
    ensures Without(a + b, drop) == Without(a, drop) + Without(b, drop)
    ensures |a| == 1 ==> Without(a, drop) == if a[0] in drop then [] else a
  {
    if a == [] {
      assert a + b == b;
    } else {
      WithoutConcat(a[1..], b, drop);
      WithoutConcatStep(a, b, drop);
    }
  }

  /** One step of `WithoutConcat`: from the tail of `a` to the whole of `a`. */
  lemma WithoutConcatStep<T(!new)>(a: seq<T>, b: seq<T>, drop: seq<T>)
    requires a != []
    requires Without(a[1..] + b, drop) == Without(a[1..], drop) + Without(b, drop)
    ensures Without(a + b, drop) == Without(a, drop) + Without(b, drop)
  {
    var head := if a[0] in drop then [] else [a[0]];
    ConcatUncons(a, b);
    WithoutUncons(a + b, drop);
    WithoutUncons(a, drop);
    ConcatRegroup(Without(a + b, drop), Without(a, drop), head, Without(a[1..], drop), Without(b, drop));
  }

  /** `Filter` of a non-empty collection, one member at a time. */
  lemma FilterUncons<T(!new)>(s: seq<T>, keep: T -> bool)
    requires s != []
    ensures Filter(s, keep) == (if keep(s[0]) then [s[0]] else []) + Filter(s[1..], keep)
  {
  }

  /** `Without` of a non-empty collection, one member at a time. */
  lemma WithoutUncons<T(!new)>(s: seq<T>, drop: seq<T>)
    requires s != []
    ensures Without(s, drop) == (if s[0] in drop then [] else [s[0]]) + Without(s[1..], drop)
  {
  }

  /** The head and the tail of `a + b` when `a` is not empty. */
  lemma ConcatUncons<T>(a: seq<T>, b: seq<T>)
    requires a != []
    ensures (a + b)[0] == a[0] && (a + b)[1..] == a[1..] + b
  {
  }

  /** Regrouping `whole == h + (x + y)` with `part == h + x` as `whole == part + y`. */
  lemma ConcatRegroup<T>(whole: seq<T>, part: seq<T>, h: seq<T>, x: seq<T>, y: seq<T>)
    requires whole == h + (x + y) && part == h + x
    ensures whole == part + y
  {
  }

  /** No member occurs twice. */
  predicate NoDup<T(==)>(s: seq<T>) {
    forall i, j :: 0 <= i < j < |s| ==> s[i] != s[j]
  }

  /** Dropping nothing keeps the collection as it is. */
  lemma {:induction false} WithoutNothing<T(!new)>(s: seq<T>)
    ensures Without(s, []) == s
  {
    if s != [] {
      WithoutNothing(s[1..]);
    }
  }

  /**
   * Dropping from `s` exactly the members that pass `keep` leaves the
   * members that pass the opposite test `reject`, in the same order:
   * `s.not(s.filter(keep))` is `s.filter(reject)`.
   */
  lemma WithoutFiltered<T(!new)>(s: seq<T>, keep: T -> bool, reject: T -> bool)
    requires forall x :: reject(x) == !keep(x)
    ensures Without(s, Filter(s, keep)) == Filter(s, reject)
  {
    WithoutMatching(s, Filter(s, keep), reject);
  }

  lemma {:induction false} WithoutMatching<T(!new)>(s: seq<T>, drop: seq<T>, reject: T -> bool)
    requires forall x :: x in s ==> (x in drop <==> !reject(x))
    ensures Without(s, drop) == Filter(s, reject)
  {
    if s != [] {
      WithoutMatching(s[1..], drop, reject);
    }
  }
}
