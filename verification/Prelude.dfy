/** Shared vocabulary: optional and fallible values, finite sums, stable sorting,
    and the lexicographic order on text that the source relies on for tie-breaks. */
module Prelude {

  datatype Option<+T> = None | Some(value: T)

  datatype Result<+T, +E> = Ok(value: T) | Err(error: E)

  // ---------- Sums ----------

  function Sum<T>(s: seq<T>, f: T -> real): real
  {
    if s == [] then 0.0 else f(s[0]) + Sum(s[1..], f)
  }

  lemma {:induction false} SumAppend<T>(s: seq<T>, t: seq<T>, f: T -> real)
    ensures Sum(s + t, f) == Sum(s, f) + Sum(t, f)
  {
    if s == [] {
      assert s + t == t;
    } else {
      assert (s + t)[0] == s[0] && (s + t)[1..] == s[1..] + t;
      SumAppend(s[1..], t, f);
    }
  }

  lemma {:induction false} SumRemove<T>(s: seq<T>, i: nat, f: T -> real)
    requires i < |s|
    ensures Sum(s, f) == f(s[i]) + Sum(s[..i] + s[i + 1..], f)
  {
    assert s == s[..i] + ([s[i]] + s[i + 1..]);
    SumAppend(s[..i], [s[i]] + s[i + 1..], f);
    SumAppend(s[..i], s[i + 1..], f);
  }

  lemma RemoveFromMultiset<T>(s: seq<T>, i: nat)
    requires i < |s|
    ensures multiset(s[..i] + s[i + 1..]) == multiset(s) - multiset{s[i]}
    ensures multiset(s) == multiset{s[i]} + multiset(s[..i] + s[i + 1..])
  {
    assert s == s[..i] + ([s[i]] + s[i + 1..]);
  }

  // Take the head of one arrangement out of another.
  lemma RemoveHead<T>(s: seq<T>, t: seq<T>) returns (i: nat)
    requires s != [] && multiset(s) == multiset(t)
    ensures i < |t| && t[i] == s[0]
    ensures multiset(s[1..]) == multiset(t[..i] + t[i + 1..])
  {
    assert s[0] in multiset(t);
    i :| 0 <= i < |t| && t[i] == s[0];
    TailMultiset(s);
    RemoveFromMultiset(t, i);
  }

  lemma TailMultiset<T>(s: seq<T>)
    requires s != []
    ensures multiset(s[1..]) == multiset(s) - multiset{s[0]}
  {
    assert s == [s[0]] + s[1..];
  }

  lemma OnlyEmptyIsEmpty<T>(s: seq<T>, t: seq<T>)
    requires multiset(s) == multiset(t) && s == []
    ensures t == []
  {
    assert |multiset(t)| == 0;
  }

  /** A sum depends on the elements only, never on the order they arrive in. */
  lemma {:induction false} SumPermutation<T>(s: seq<T>, t: seq<T>, f: T -> real)
    requires multiset(s) == multiset(t)
    ensures Sum(s, f) == Sum(t, f)
    decreases |s|
  {
    if s == [] {
      OnlyEmptyIsEmpty(s, t);
    } else {
      var i := RemoveHead(s, t);
      SumPermutation(s[1..], t[..i] + t[i + 1..], f);
      SumRemove(t, i, f);
    }
  }

  lemma {:induction false} SumMonotone<T>(s: seq<T>, f: T -> real, g: T -> real)
    requires forall x :: x in s ==> f(x) <= g(x)
    ensures Sum(s, f) <= Sum(s, g)
  {
    if s != [] {
      SumMonotone(s[1..], f, g);
    }
  }

  // Two functions that agree on the elements give one sum.
  lemma {:induction false} SumAgree<T>(s: seq<T>, f: T -> real, g: T -> real)
    requires forall x :: x in s ==> f(x) == g(x)
    ensures Sum(s, f) == Sum(s, g)
  {
    SumMonotone(s, f, g);
    SumMonotone(s, g, f);
  }

  lemma {:induction false} SumScale<T>(s: seq<T>, f: T -> real, g: T -> real, c: real)
    requires forall x :: x in s ==> g(x) == c * f(x)
    ensures Sum(s, g) == c * Sum(s, f)
  {
    if s != [] {
      SumScale(s[1..], f, g, c);
    }
  }

  // ---------- Sorting ----------

  ghost predicate TotalPreorder<T(!new)>(leq: (T, T) -> bool)
  {
    && (forall a, b :: leq(a, b) || leq(b, a))
    && (forall a, b, c :: leq(a, b) && leq(b, c) ==> leq(a, c))
  }

  ghost predicate SortedBy<T>(s: seq<T>, leq: (T, T) -> bool)
  {
    forall i, j :: 0 <= i < j < |s| ==> leq(s[i], s[j])
  }

  function InsertBy<T>(x: T, s: seq<T>, leq: (T, T) -> bool): (r: seq<T>)
    ensures multiset(r) == multiset(s) + multiset{x}
    ensures |r| == |s| + 1
  {
    if s == [] then [x]
    else if leq(x, s[0]) then [x] + s
    else
      assert s == [s[0]] + s[1..];
      [s[0]] + InsertBy(x, s[1..], leq)
  }

  /** Stable sort: an element keeps its place among those it ties with. */
  function SortBy<T>(s: seq<T>, leq: (T, T) -> bool): (r: seq<T>)
    ensures multiset(r) == multiset(s)
    ensures |r| == |s|
  {
    if s == [] then []
    else
      assert s == [s[0]] + s[1..];
      InsertBy(s[0], SortBy(s[1..], leq), leq)
  }

  lemma {:induction false} InsertKeepsSorted<T(!new)>(x: T, s: seq<T>, leq: (T, T) -> bool)
    requires TotalPreorder(leq)
    requires SortedBy(s, leq)
    ensures SortedBy(InsertBy(x, s, leq), leq)
  {
    if s != [] && !leq(x, s[0]) {
      InsertKeepsSorted(x, s[1..], leq);
      var rest := InsertBy(x, s[1..], leq);
      forall j | 0 <= j < |rest|
        ensures leq(s[0], rest[j])
      {
        assert rest[j] in multiset(rest);
        assert rest[j] == x || rest[j] in multiset(s[1..]);
      }
    }
  }

  lemma {:induction false} SortSorts<T(!new)>(s: seq<T>, leq: (T, T) -> bool)
    requires TotalPreorder(leq)
    ensures SortedBy(SortBy(s, leq), leq)
  {
    if s != [] {
      SortSorts(s[1..], leq);
      InsertKeepsSorted(s[0], SortBy(s[1..], leq), leq);
    }
  }

  ghost predicate Antisymmetric<T(!new)>(leq: (T, T) -> bool)
  {
    forall a, b :: leq(a, b) && leq(b, a) ==> a == b
  }

  lemma HeadsAgree<T(!new)>(a: seq<T>, b: seq<T>, leq: (T, T) -> bool)
    requires a != [] && b != [] && multiset(a) == multiset(b)
    requires Antisymmetric(leq) && SortedBy(a, leq) && SortedBy(b, leq)
    ensures a[0] == b[0]
  {
    assert a[0] in multiset(b) && b[0] in multiset(a);
    var i :| 0 <= i < |b| && b[i] == a[0];
    var j :| 0 <= j < |a| && a[j] == b[0];
    assert i > 0 ==> leq(b[0], b[i]);
    assert j > 0 ==> leq(a[0], a[j]);
  }

  lemma SameHeadAndTail<T>(a: seq<T>, b: seq<T>)
    requires a != [] && b != [] && a[0] == b[0] && a[1..] == b[1..]
    ensures a == b
  {
    assert a == [a[0]] + a[1..] && b == [b[0]] + b[1..];
  }

  lemma SortedTail<T(!new)>(s: seq<T>, leq: (T, T) -> bool)
    requires s != [] && SortedBy(s, leq)
    ensures SortedBy(s[1..], leq)
  {
  }

  lemma {:induction false} SortedListsAgree<T(!new)>(a: seq<T>, b: seq<T>, leq: (T, T) -> bool)
    requires multiset(a) == multiset(b) && |a| == |b|
    requires Antisymmetric(leq) && SortedBy(a, leq) && SortedBy(b, leq)
    ensures a == b
  {
    if a != [] {
      HeadsAgree(a, b, leq);
      TailMultiset(a);
      TailMultiset(b);
      SortedTail(a, leq);
      SortedTail(b, leq);
      SortedListsAgree(a[1..], b[1..], leq);
      SameHeadAndTail(a, b);
    }
  }

  lemma MultisetLength<T>(a: seq<T>, b: seq<T>)
    requires multiset(a) == multiset(b)
    ensures |a| == |b|
  {
    assert |multiset(a)| == |a| && |multiset(b)| == |b|;
  }

  /** Sorting by a total order erases the arrival order and nothing else. */
  lemma {:induction false} SortIsCanonical<T(!new)>(a: seq<T>, b: seq<T>, leq: (T, T) -> bool)
    requires TotalPreorder(leq) && Antisymmetric(leq)
    ensures SortBy(a, leq) == SortBy(b, leq) <==> multiset(a) == multiset(b)
  {
    SortSorts(a, leq);
    SortSorts(b, leq);
    if multiset(a) == multiset(b) {
      MultisetLength(a, b);
      SortedListsAgree(SortBy(a, leq), SortBy(b, leq), leq);
    }
  }

  // ---------- Text order ----------

  predicate TextLeq(a: string, b: string)
  {
    a == [] || (b != [] && (a[0] < b[0] || (a[0] == b[0] && TextLeq(a[1..], b[1..]))))
  }

  predicate TextLess(a: string, b: string)
  {
    a != b && TextLeq(a, b)
  }

  lemma {:induction false} TextLeqTotal(a: string, b: string)
    ensures TextLeq(a, b) || TextLeq(b, a)
  {
    if a != [] && b != [] {
      TextLeqTotal(a[1..], b[1..]);
    }
  }

  lemma {:induction false} TextLeqAntisymmetric(a: string, b: string)
    requires TextLeq(a, b) && TextLeq(b, a)
    ensures a == b
  {
    if a != [] && b != [] {
      TextLeqAntisymmetric(a[1..], b[1..]);
      assert a == [a[0]] + a[1..] && b == [b[0]] + b[1..];
    }
  }

  lemma {:induction false} TextLeqTransitive(a: string, b: string, c: string)
    requires TextLeq(a, b) && TextLeq(b, c)
    ensures TextLeq(a, c)
  {
    if a != [] && a[0] == b[0] == c[0] {
      TextLeqTransitive(a[1..], b[1..], c[1..]);
    }
  }

  // The texts agree before place k and differ there.
  ghost predicate FirstDiffer(a: string, b: string, k: nat)
  {
    k < |a| && k < |b| && a[..k] == b[..k] && a[k] != b[k]
  }

  lemma FirstDifferLater(a: string, b: string, k: nat)
    requires a != [] && b != [] && a[0] == b[0] && FirstDiffer(a[1..], b[1..], k)
    ensures FirstDiffer(a, b, k + 1) && a[k + 1] == a[1..][k] && b[k + 1] == b[1..][k]
  {
    assert a[..k + 1] == [a[0]] + a[1..][..k] && b[..k + 1] == [b[0]] + b[1..][..k];
  }

  /** Text order is the order of the first differing character, a prefix coming first. */
  lemma {:induction false} TextLeqIsLexicographic(a: string, b: string) returns (k: nat)
    ensures a <= b || b <= a || FirstDiffer(a, b, k)
    ensures TextLeq(a, b) <==> a <= b || (FirstDiffer(a, b, k) && a[k] < b[k])
  {
    k := 0;
    if a != [] && b != [] && a[0] == b[0] {
      var h := TextLeqIsLexicographic(a[1..], b[1..]);
      k := h + 1;
      assert a == [a[0]] + a[1..] && b == [b[0]] + b[1..];
      if FirstDiffer(a[1..], b[1..], h) {
        FirstDifferLater(a, b, h);
      }
    }
  }

  lemma TextLeqPreorder()
    ensures TotalPreorder(TextLeq)
  {
    forall a: string, b: string
      ensures TextLeq(a, b) || TextLeq(b, a)
    {
      TextLeqTotal(a, b);
    }
    forall a: string, b: string, c: string | TextLeq(a, b) && TextLeq(b, c)
      ensures TextLeq(a, c)
    {
      TextLeqTransitive(a, b, c);
    }
  }

  lemma TextLeqIsAntisymmetric()
    ensures Antisymmetric(TextLeq)
  {
    forall a: string, b: string | TextLeq(a, b) && TextLeq(b, a)
      ensures a == b
    {
      TextLeqAntisymmetric(a, b);
    }
  }

  // ---------- Sets and sequences ----------

  lemma Member<T>(s: set<T>) returns (x: T)
    requires s != {}
    ensures x in s
  {
    x :| x in s;
  }

  lemma SubsetSize<T>(a: set<T>, b: set<T>)
    requires a <= b
    ensures |a| <= |b|
  {
    assert b == a + (b - a);
  }

  ghost predicate Distinct<T>(s: seq<T>)
  {
    forall i, j :: 0 <= i < j < |s| ==> s[i] != s[j]
  }

  lemma DistinctSnoc<T>(s: seq<T>, x: T)
    ensures Distinct(s + [x]) <==> Distinct(s) && x !in s
  {
    var t := s + [x];
    if Distinct(t) {
      assert forall i :: 0 <= i < |s| ==> t[i] == s[i] && t[i] != t[|s|];
    }
  }

  /** The members of a sequence, each kept where it first occurs. */
  function Unique<T(==,!new)>(s: seq<T>): (r: seq<T>)
    ensures Distinct(r) && forall x :: x in r <==> x in s
  {
    if s == [] then []
    else
      var front, last := s[..|s| - 1], s[|s| - 1];
      assert forall x :: x in s <==> x in front || x == last;
      if last in front then Unique(front) else Unique(front) + [last]
  }

  lemma {:induction false} SetSizeFindsRepeats<T(!new)>(s: seq<T>)
    ensures |(set x | x in s)| <= |s|
    ensures |(set x | x in s)| == |s| <==> Distinct(s)
  {
    if s != [] {
      var front, last := s[..|s| - 1], s[|s| - 1];
      SetSizeFindsRepeats(front);
      assert s == front + [last];
      DistinctSnoc(front, last);
      assert (set x | x in s) == (set x | x in front) + {last};
    } else {
      assert (set x | x in s) == {};
    }
  }

  // INSERT OR IGNORE: a present key keeps its row.
  function InsertIfAbsent<K, V>(table: map<K, V>, key: K, value: V): map<K, V>
  {
    if key in table then table else table[key := value]
  }

  // Two lists whose places pair up: one has a property throughout exactly when the other has.
  lemma HoldThroughout<A, B>(a: seq<A>, b: seq<B>, p: A -> bool, q: B -> bool)
    requires |a| == |b| && forall i :: 0 <= i < |a| ==> (p(a[i]) <==> q(b[i]))
    ensures (forall x :: x in a ==> p(x)) <==> (forall y :: y in b ==> q(y))
  {
    if forall x :: x in a ==> p(x) {
      forall y | y in b ensures q(y) {
        var i :| 0 <= i < |b| && b[i] == y;
        assert a[i] in a;
      }
    }
    if forall y :: y in b ==> q(y) {
      forall x | x in a ensures p(x) {
        var i :| 0 <= i < |a| && a[i] == x;
        assert b[i] in b;
      }
    }
  }

  lemma TakeSnoc<T>(s: seq<T>, i: nat)
    requires i < |s|
    ensures s[..i + 1] == s[..i] + [s[i]]
    ensures s[i] in s
  {
  }

  /** A sequence that names every member of a set exactly once. */
  ghost predicate IsListing<T(!new)>(s: seq<T>, members: set<T>)
  {
    Distinct(s) && forall x :: x in s <==> x in members
  }

  lemma {:induction false} ListingOf<T(!new)>(members: set<T>) returns (s: seq<T>)
    ensures IsListing(s, members)
  {
    if members == {} {
      s := [];
    } else {
      var x :| x in members;
      var rest := ListingOf(members - {x});
      s := [x] + rest;
      assert forall y :: y in s <==> y == x || y in rest;
    }
  }

  lemma ListingExists<T(!new)>(members: set<T>)
    ensures exists s: seq<T> :: IsListing(s, members)
  {
    var s := ListingOf(members);
  }

  lemma {:induction false} DistinctMultiset<T(!new)>(s: seq<T>)
    requires Distinct(s)
    ensures forall x :: multiset(s)[x] == if x in s then 1 else 0
  {
    if s != [] {
      DistinctMultiset(s[1..]);
      assert s == [s[0]] + s[1..];
      assert s[0] !in s[1..];
    }
  }

  lemma {:induction false} CountsMakeDistinct<T(!new)>(s: seq<T>)
    requires forall x :: multiset(s)[x] <= 1
    ensures Distinct(s)
  {
    if s != [] {
      assert s == [s[0]] + s[1..];
      assert forall x :: multiset(s[1..])[x] <= multiset(s)[x];
      CountsMakeDistinct(s[1..]);
      assert multiset(s)[s[0]] == 1 + multiset(s[1..])[s[0]];
      assert s[0] !in multiset(s[1..]);
      assert s[0] !in s[1..];
    }
  }

  lemma ListingsArePermutations<T(!new)>(a: seq<T>, b: seq<T>, members: set<T>)
    requires IsListing(a, members) && IsListing(b, members)
    ensures multiset(a) == multiset(b)
  {
    DistinctMultiset(a);
    DistinctMultiset(b);
    forall x
      ensures multiset(a)[x] == multiset(b)[x]
    {
      assert x in a <==> x in b;
    }
  }

  lemma {:induction false} ListingLength<T(!new)>(s: seq<T>, members: set<T>)
    requires IsListing(s, members)
    ensures |s| == |members|
    decreases |s|
  {
    if s != [] {
      var rest := s[1..];
      assert s[0] in members;
      forall x ensures x in rest <==> x in members - {s[0]} {
        assert x in s <==> x == s[0] || x in rest;
      }
      ListingLength(rest, members - {s[0]});
    } else {
      assert forall x :: x in members ==> x in s;
      assert members == {};
    }
  }

  function Flatten<T>(s: seq<seq<T>>): seq<T>
  {
    if s == [] then [] else s[0] + Flatten(s[1..])
  }

  lemma {:induction false} FlattenAppend<T>(s: seq<seq<T>>, t: seq<seq<T>>)
    ensures Flatten(s + t) == Flatten(s) + Flatten(t)
  {
    if s == [] {
      assert s + t == t;
    } else {
      assert (s + t)[0] == s[0] && (s + t)[1..] == s[1..] + t;
      FlattenAppend(s[1..], t);
    }
  }

  function FlatMap<T, U>(s: seq<T>, f: T -> seq<U>): seq<U>
  {
    if s == [] then [] else f(s[0]) + FlatMap(s[1..], f)
  }

  lemma {:induction false} FlatMapAppend<T, U>(s: seq<T>, t: seq<T>, f: T -> seq<U>)
    ensures FlatMap(s + t, f) == FlatMap(s, f) + FlatMap(t, f)
  {
    if s == [] {
      assert s + t == t;
    } else {
      assert (s + t)[0] == s[0] && (s + t)[1..] == s[1..] + t;
      FlatMapAppend(s[1..], t, f);
    }
  }

  lemma {:induction false} FlatMapFlattens<T, U>(s: seq<T>, f: T -> seq<U>, parts: seq<seq<U>>)
    requires |parts| == |s| && forall i :: 0 <= i < |s| ==> parts[i] == f(s[i])
    ensures FlatMap(s, f) == Flatten(parts)
  {
    if s != [] {
      FlatMapFlattens(s[1..], f, parts[1..]);
    }
  }

  lemma {:induction false} FlatMapSnoc<T, U>(front: seq<T>, last: T, f: T -> seq<U>)
    ensures FlatMap(front + [last], f) == FlatMap(front, f) + f(last)
  {
    FlatMapAppend(front, [last], f);
    assert [last][1..] == [] && FlatMap([last], f) == f(last) + [];
  }

  lemma {:induction false} FlatMapRemove<T, U>(s: seq<T>, i: nat, f: T -> seq<U>)
    requires i < |s|
    ensures multiset(FlatMap(s, f)) == multiset(f(s[i])) + multiset(FlatMap(s[..i] + s[i + 1..], f))
  {
    assert s == s[..i] + ([s[i]] + s[i + 1..]);
    FlatMapAppend(s[..i], [s[i]] + s[i + 1..], f);
    FlatMapAppend(s[..i], s[i + 1..], f);
    assert ([s[i]] + s[i + 1..])[1..] == s[i + 1..];
  }

  lemma {:induction false} FlatMapPermutation<T, U>(s: seq<T>, t: seq<T>, f: T -> seq<U>)
    requires multiset(s) == multiset(t)
    ensures multiset(FlatMap(s, f)) == multiset(FlatMap(t, f))
    decreases |s|
  {
    if s == [] {
      OnlyEmptyIsEmpty(s, t);
    } else {
      var i := RemoveHead(s, t);
      FlatMapPermutation(s[1..], t[..i] + t[i + 1..], f);
      FlatMapRemove(t, i, f);
    }
  }
}
