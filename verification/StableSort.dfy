/**
 Stable sorting, as the standard library's `sort_by` and `sort_by_key` promise it.

 The promise is stated as a relation between input and output, so that results about the program
 hold of any algorithm that keeps it; `Sort` shows that it can be kept, and `Unique` that it
 leaves no freedom.
 */
module StableSort {

  ghost predicate TotalPreorder<T(!new)>(leq: (T, T) -> bool) {
    && (forall x, y :: leq(x, y) || leq(y, x))
    && (forall x, y, z :: leq(x, y) && leq(y, z) ==> leq(x, z))
  }

  predicate Sorted<T>(s: seq<T>, leq: (T, T) -> bool) {
    forall i, j :: 0 <= i < j < |s| ==> leq(s[i], s[j])
  }

  /** The elements of `s` the order cannot tell from `x`, in the order they stand in. */
  function Ties<T>(s: seq<T>, x: T, leq: (T, T) -> bool): seq<T> {
    if s == [] then []
    else (if leq(s[0], x) && leq(x, s[0]) then [s[0]] else []) + Ties(s[1..], x, leq)
  }

  /** `out` is `s` sorted by `leq`, elements that tie keeping their order. */
  ghost predicate StablySorts<T(!new)>(s: seq<T>, out: seq<T>, leq: (T, T) -> bool) {
    && Sorted(out, leq)
    && multiset(out) == multiset(s)
    && (forall x :: Ties(out, x, leq) == Ties(s, x, leq))
  }

  function Insert<T>(x: T, s: seq<T>, leq: (T, T) -> bool): seq<T> {
    if s == [] then [x]
    else if leq(x, s[0]) then [x] + s
    else [s[0]] + Insert(x, s[1..], leq)
  }

  function Sort<T>(s: seq<T>, leq: (T, T) -> bool): seq<T> {
    if s == [] then [] else Insert(s[0], Sort(s[1..], leq), leq)
  }

  lemma {:induction false} InsertPermutes<T>(x: T, s: seq<T>, leq: (T, T) -> bool)
    ensures multiset(Insert(x, s, leq)) == multiset([x] + s)
  {
    if s != [] && !leq(x, s[0]) {
      InsertPermutes(x, s[1..], leq);
      assert s == [s[0]] + s[1..];
      assert multiset([x] + s) == multiset{x} + multiset{s[0]} + multiset(s[1..]);
    }
  }

  lemma {:induction false} InsertSorts<T(!new)>(x: T, s: seq<T>, leq: (T, T) -> bool)
    requires TotalPreorder(leq) && Sorted(s, leq)
    ensures Sorted(Insert(x, s, leq), leq)
  {
    if s == [] {
    } else if leq(x, s[0]) {
      forall j | 0 <= j < |s| ensures leq(x, s[j]) {
        assert leq(s[0], s[0]);
        assert leq(s[0], s[j]);
      }
    } else {
      var rest := Insert(x, s[1..], leq);
      InsertSorts(x, s[1..], leq);
      InsertPermutes(x, s[1..], leq);
      forall j | 0 <= j < |rest| ensures leq(s[0], rest[j]) {
        assert rest[j] in multiset(rest);
        assert rest[j] in [x] + s[1..];
        if rest[j] != x {
          var k :| 0 <= k < |s[1..]| && s[1..][k] == rest[j];
          assert leq(s[0], s[k + 1]);
        }
      }
    }
  }

  lemma {:induction false} InsertKeepsTies<T(!new)>(x: T, s: seq<T>, leq: (T, T) -> bool, y: T)
    requires TotalPreorder(leq)
    ensures Ties(Insert(x, s, leq), y, leq) == Ties([x] + s, y, leq)
  {
    assert ([x] + s)[1..] == s;
    if s != [] && !leq(x, s[0]) {
      InsertKeepsTies(x, s[1..], leq, y);
      assert ([x] + s[1..])[1..] == s[1..];
      assert Insert(x, s, leq)[1..] == Insert(x, s[1..], leq);
      // `x` and `s[0]` do not tie with one another, so at most one of them ties with `y`
      assert !(leq(x, y) && leq(y, x) && leq(s[0], y) && leq(y, s[0]));
    }
  }

  /** The promise can be kept. */
  lemma {:induction false} SortStablySorts<T(!new)>(s: seq<T>, leq: (T, T) -> bool)
    requires TotalPreorder(leq)
    ensures StablySorts(s, Sort(s, leq), leq)
  {
    if s != [] {
      SortStablySorts(s[1..], leq);
      var rest := Sort(s[1..], leq);
      InsertPermutes(s[0], rest, leq);
      InsertSorts(s[0], rest, leq);
      assert s == [s[0]] + s[1..];
      forall y ensures Ties(Sort(s, leq), y, leq) == Ties(s, y, leq) {
        InsertKeepsTies(s[0], rest, leq, y);
        assert ([s[0]] + rest)[1..] == rest;
      }
    }
  }

  lemma {:induction false} TiesAreFromTheList<T>(s: seq<T>, x: T, leq: (T, T) -> bool)
    ensures forall y :: y in Ties(s, x, leq) <==> y in s && leq(y, x) && leq(x, y)
  {
    if s != [] {
      TiesAreFromTheList(s[1..], x, leq);
      assert forall y :: y in s <==> y == s[0] || y in s[1..];
    }
  }

  lemma SomethingTiesWithItsHead<T(!new)>(s: seq<T>, leq: (T, T) -> bool)
    requires TotalPreorder(leq)
    ensures s != [] ==> exists x :: Ties(s, x, leq) != []
  {
    if s != [] {
      assert leq(s[0], s[0]);
      assert Ties(s, s[0], leq) != [];
    }
  }

  /** Two stable sorts of the same list are the same list. */
  lemma {:induction false} Unique<T(!new)>(a: seq<T>, b: seq<T>, leq: (T, T) -> bool)
    requires TotalPreorder(leq) && Sorted(a, leq) && Sorted(b, leq)
    requires forall x :: Ties(a, x, leq) == Ties(b, x, leq)
    ensures a == b
  {
    if a == [] || b == [] {
      SomethingTiesWithItsHead(a, leq);
      SomethingTiesWithItsHead(b, leq);
    } else {
      HeadsTie(a, b, leq);
      HeadsTie(b, a, leq);
      assert Ties(a, a[0], leq)[0] == a[0];
      assert Ties(b, a[0], leq)[0] == b[0];
      forall x ensures Ties(a[1..], x, leq) == Ties(b[1..], x, leq) {
        assert Ties(a, x, leq) == Ties(b, x, leq);
        assert a[0] == b[0];
        var drop := if leq(a[0], x) && leq(x, a[0]) then 1 else 0;
        assert Ties(a[1..], x, leq) == Ties(a, x, leq)[drop..];
        assert Ties(b[1..], x, leq) == Ties(b, x, leq)[drop..];
      }
      Unique(a[1..], b[1..], leq);
      assert a == [a[0]] + a[1..] && b == [b[0]] + b[1..];
    }
  }

  lemma HeadsTie<T(!new)>(a: seq<T>, b: seq<T>, leq: (T, T) -> bool)
    requires TotalPreorder(leq) && Sorted(a, leq) && Sorted(b, leq) && a != [] && b != []
    requires forall x :: Ties(a, x, leq) == Ties(b, x, leq)
    ensures leq(a[0], b[0])
  {
    TiesAreFromTheList(b, b[0], leq);
    TiesAreFromTheList(a, b[0], leq);
    assert leq(b[0], b[0]);
    assert b[0] in Ties(b, b[0], leq);
    assert Ties(a, b[0], leq) == Ties(b, b[0], leq);
    var k :| 0 <= k < |a| && a[k] == b[0];
    assert leq(a[0], a[0]);
  }

  /** Orders that agree on the elements being sorted sort them alike. */
  lemma {:induction false} TiesAgree<T>(s: seq<T>, x: T, leq: (T, T) -> bool, leq': (T, T) -> bool)
    requires forall y :: y in s ==> (leq(x, y) <==> leq'(x, y)) && (leq(y, x) <==> leq'(y, x))
    ensures Ties(s, x, leq) == Ties(s, x, leq')
  {
    if s != [] {
      assert s[0] in s;
      TiesAgree(s[1..], x, leq, leq');
    }
  }

  lemma PermutationMember<T>(s: seq<T>, out: seq<T>, x: T)
    requires multiset(out) == multiset(s)
    ensures |out| == |s| && (x in out <==> x in s)
  {
    assert |multiset(out)| == |multiset(s)|;
    assert x in multiset(out) <==> x in multiset(s);
  }
}
