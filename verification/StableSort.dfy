/** Array.prototype.sort: a stable sort by a total preorder. */
module StableSort {

  ghost predicate TotalPreorder<T(!new)>(leq: (T, T) -> bool) {
    && (forall x, y :: leq(x, y) || leq(y, x))
    && (forall x, y, z :: leq(x, y) && leq(y, z) ==> leq(x, z))
  }

  ghost predicate Sorted<T>(s: seq<T>, leq: (T, T) -> bool) {
    forall i, j :: 0 <= i < j < |s| ==> leq(s[i], s[j])
  }

  /** Put x before the first element that it may precede. */
  function Insert<T>(x: T, s: seq<T>, leq: (T, T) -> bool): (r: seq<T>)
    ensures |r| == |s| + 1
  {
    if s == [] || leq(x, s[0]) then [x] + s else [s[0]] + Insert(x, s[1..], leq)
  }

  function Sort<T>(s: seq<T>, leq: (T, T) -> bool): (r: seq<T>)
    ensures |r| == |s|
  {
    if s == [] then [] else Insert(s[0], Sort(s[1..], leq), leq)
  }

  lemma {:induction false} InsertPermutes<T>(x: T, s: seq<T>, leq: (T, T) -> bool)
    ensures multiset(Insert(x, s, leq)) == multiset{x} + multiset(s)
  {
    if s != [] && !leq(x, s[0]) {
      assert s == [s[0]] + s[1..];
      InsertPermutes(x, s[1..], leq);
    }
  }

  lemma {:induction false} SortPermutes<T>(s: seq<T>, leq: (T, T) -> bool)
    ensures multiset(Sort(s, leq)) == multiset(s)
  {
    if s != [] {
      assert s == [s[0]] + s[1..];
      SortPermutes(s[1..], leq);
      InsertPermutes(s[0], Sort(s[1..], leq), leq);
    }
  }

  lemma {:induction false} InsertSorted<T(!new)>(x: T, s: seq<T>, leq: (T, T) -> bool)
    requires TotalPreorder(leq) && Sorted(s, leq)
    ensures Sorted(Insert(x, s, leq), leq)
  {
    if s != [] && !leq(x, s[0]) {
      var tail := Insert(x, s[1..], leq);
      InsertSorted(x, s[1..], leq);
      InsertPermutes(x, s[1..], leq);
      forall i | 0 <= i < |tail| ensures leq(s[0], tail[i]) {
        assert tail[i] in multiset(tail);
        assert tail[i] == x || tail[i] in s[1..];
      }
    }
  }

  lemma {:induction false} SortSorted<T(!new)>(s: seq<T>, leq: (T, T) -> bool)
    requires TotalPreorder(leq)
    ensures Sorted(Sort(s, leq), leq)
  {
    if s != [] {
      SortSorted(s[1..], leq);
      InsertSorted(s[0], Sort(s[1..], leq), leq);
    }
  }

  lemma SortMembers<T>(s: seq<T>, leq: (T, T) -> bool, x: T)
    ensures x in Sort(s, leq) <==> x in s
  {
    SortPermutes(s, leq);
    assert x in Sort(s, leq) <==> x in multiset(Sort(s, leq));
  }

  /** What is in order stays where it is when nothing behind it belongs before it. */
  lemma {:induction false} SortAppend<T>(a: seq<T>, b: seq<T>, leq: (T, T) -> bool)
    requires Sorted(a, leq)
    requires forall x, y :: x in a && y in b ==> leq(x, y)
    ensures Sort(a + b, leq) == a + Sort(b, leq)
  {
    if a == [] {
      assert a + b == b;
    } else {
      var x, rest := a[0], a[1..];
      assert (a + b)[1..] == rest + b;
      SortAppend(rest, b, leq);
      var tail := rest + Sort(b, leq);
      if tail != [] {
        SortMembers(b, leq, tail[0]);
      }
      assert Insert(x, tail, leq) == [x] + tail;
      assert [x] + tail == a + Sort(b, leq);
    }
  }

  // ----- permutations -----

  function InsertAll<T>(x: seq<T>, s: seq<T>, leq: (T, T) -> bool): seq<T> {
    if x == [] then s else Insert(x[0], InsertAll(x[1..], s, leq), leq)
  }

  lemma {:induction false} SortInserts<T>(x: seq<T>, y: seq<T>, leq: (T, T) -> bool)
    ensures Sort(x + y, leq) == InsertAll(x, Sort(y, leq), leq)
  {
    if x == [] {
      assert x + y == y;
    } else {
      assert (x + y)[1..] == x[1..] + y;
      SortInserts(x[1..], y, leq);
    }
  }

  predicate Tie<T>(x: T, y: T, leq: (T, T) -> bool) {
    leq(x, y) && leq(y, x)
  }

  /** Elements that do not tie may be put in in either order ... */
  lemma {:induction false} InsertsCommute<T(!new)>(x: T, y: T, s: seq<T>, leq: (T, T) -> bool)
    requires TotalPreorder(leq) && (x == y || !Tie(x, y, leq))
    ensures Insert(x, Insert(y, s, leq), leq) == Insert(y, Insert(x, s, leq), leq)
  {
    if s != [] && !leq(x, s[0]) && !leq(y, s[0]) {
      InsertsCommute(x, y, s[1..], leq);
    }
  }

  /** ... and elements that tie stay in the order they are put in. */
  lemma {:induction false} TiesStay<T(!new)>(x: T, y: T, s: seq<T>, leq: (T, T) -> bool) returns (i: nat)
    requires TotalPreorder(leq) && Tie(x, y, leq)
    ensures i <= |s| && Insert(x, Insert(y, s, leq), leq) == s[..i] + [x, y] + s[i..]
    ensures Insert(y, Insert(x, s, leq), leq) == s[..i] + [y, x] + s[i..]
  {
    if s == [] || leq(x, s[0]) {
      i := 0;
    } else {
      assert !leq(y, s[0]);
      var j := TiesStay(x, y, s[1..], leq);
      Shifted(s, j, [x, y]);
      Shifted(s, j, [y, x]);
      assert Insert(y, s, leq)[1..] == Insert(y, s[1..], leq) && Insert(x, s, leq)[1..] == Insert(x, s[1..], leq);
      i := j + 1;
    }
  }

  lemma Shifted<T>(s: seq<T>, i: nat, more: seq<T>)
    requires i < |s|
    ensures s[..i + 1] + more + s[i + 1..] == [s[0]] + (s[1..][..i] + more + s[1..][i..])
  {
  }

  ghost predicate NoTies<T(!new)>(s: seq<T>, leq: (T, T) -> bool) {
    forall x, y :: x in s && y in s && Tie(x, y, leq) ==> x == y
  }

  lemma {:induction false} InsertsFirst<T(!new)>(u: seq<T>, x: T, v: seq<T>, s: seq<T>, leq: (T, T) -> bool)
    requires TotalPreorder(leq) && NoTies(u + [x] + v, leq)
    ensures InsertAll(u + [x] + v, s, leq) == Insert(x, InsertAll(u + v, s, leq), leq)
  {
    if u == [] {
      assert u + [x] + v == [x] + v && u + v == v && ([x] + v)[1..] == v;
    } else {
      var rest := u[1..] + [x] + v;
      assert u + [x] + v == [u[0]] + rest && ([u[0]] + rest)[1..] == rest && (u + v)[1..] == u[1..] + v;
      assert forall y :: y in rest ==> y in u + [x] + v;
      InsertsFirst(u[1..], x, v, s, leq);
      assert u[0] in u + [x] + v && x in u + [x] + v;
      InsertsCommute(u[0], x, InsertAll(u[1..] + v, s, leq), leq);
    }
  }

  /** An element of a list, and what is before and behind it. */
  lemma Around<T>(y: seq<T>, x: T) returns (u: seq<T>, v: seq<T>)
    requires x in multiset(y)
    ensures y == u + [x] + v && multiset(y) == multiset(u + v) + multiset{x}
  {
    var i :| 0 <= i < |y| && y[i] == x;
    u, v := y[..i], y[i + 1..];
    assert y == u + [x] + v;
  }

  lemma TailMultiset<T>(s: seq<T>)
    requires s != []
    ensures multiset(s) == multiset(s[1..]) + multiset{s[0]}
  {
    assert s == [s[0]] + s[1..];
  }

  lemma Cancel<T>(a: multiset<T>, b: multiset<T>, x: T)
    requires a + multiset{x} == b + multiset{x}
    ensures a == b
  {
    assert a == a + multiset{x} - multiset{x} == b + multiset{x} - multiset{x} == b;
  }

  /** Without ties the order in which elements arrive does not show, whatever comes after. */
  lemma {:induction false} PermutedInserts<T(!new)>(x: seq<T>, y: seq<T>, s: seq<T>, leq: (T, T) -> bool)
    requires TotalPreorder(leq) && multiset(x) == multiset(y) && NoTies(x, leq)
    ensures InsertAll(x, s, leq) == InsertAll(y, s, leq)
  {
    hide NoTies, TotalPreorder;
    if x == [] {
      assert |y| == |multiset(y)| == 0;
    } else {
      TailMultiset(x);
      var u, v := Around(y, x[0]);
      Cancel(multiset(x[1..]), multiset(u + v), x[0]);
      SameElements(x, y);
      SubsetHasNoTies(x, y, leq);
      SubsetHasNoTies(x, x[1..], leq);
      InsertsFirst(u, x[0], v, s, leq);
      PermutedInserts(x[1..], u + v, s, leq);
    }
  }

  lemma SameElements<T>(x: seq<T>, y: seq<T>)
    requires multiset(x) == multiset(y)
    ensures forall e :: e in x <==> e in y
  {
    forall e ensures e in x <==> e in y {
      assert e in x <==> e in multiset(x);
      assert e in y <==> e in multiset(y);
    }
  }

  lemma SubsetHasNoTies<T(!new)>(x: seq<T>, y: seq<T>, leq: (T, T) -> bool)
    requires NoTies(x, leq) && forall e :: e in y ==> e in x
    ensures NoTies(y, leq)
  {
  }

  lemma TwiceAt<T>(s: seq<T>, i: nat, j: nat)
    requires i < j < |s| && s[i] == s[j]
    ensures multiset(s)[s[i]] >= 2
  {
    assert s == s[..i] + [s[i]] + s[i + 1..j] + [s[j]] + s[j + 1..];
  }
}
