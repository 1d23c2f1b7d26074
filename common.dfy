/** Values shared by the server and the client models: optional values (a
    JSON key that is absent or null, a nullable column), identifiers, and
    the order-preserving list operations that the JavaScript code performs
    with `Array.prototype.filter` and `Array.prototype.map`. */
module Common {

  /** A JSON value that may be absent/null, or a nullable SQL column. */
  datatype Option<T> = None | Some(value: T)

  /** Row identifiers: UUID strings generated by the server. */
  type Id = string

  /** Image URLs as stored in the tables and held by the client. */
  type Url = string

  /** `s.filter(keep)`: the elements of `s` that satisfy `keep`, in order. */
  function Filter<T(==,!new)>(s: seq<T>, keep: T -> bool): (r: seq<T>)
    ensures |r| <= |s|
    ensures forall x :: x in r <==> x in s && keep(x)
    ensures forall i :: 0 <= i < |r| ==> keep(r[i])
  {
    if s == [] then []
    else if keep(s[0]) then [s[0]] + Filter(s[1..], keep)
    else Filter(s[1..], keep)
  }

  /** Filtering distributes over concatenation, so the kept elements keep
      their relative order. */
  lemma {:induction false} FilterAppend<T(!new)>(a: seq<T>, b: seq<T>, keep: T -> bool)
    ensures Filter(a + b, keep) == Filter(a, keep) + Filter(b, keep)
  {
    if a == [] {
      assert a + b == b;
    } else {
      assert (a + b)[1..] == a[1..] + b;
      FilterAppend(a[1..], b, keep);
    }
  }

  /** A filter that keeps every element is the identity. */
  lemma {:induction false} FilterKeepsAll<T(!new)>(s: seq<T>, keep: T -> bool)
    ensures (forall x :: x in s ==> keep(x)) ==> Filter(s, keep) == s
  {
    if s != [] && forall x :: x in s ==> keep(x) {
      assert forall x :: x in s[1..] ==> x in s;
      FilterKeepsAll(s[1..], keep);
    }
  }

  /** Two predicates that agree on the elements of `s` filter it alike. */
  lemma {:induction false} FilterCongruent<T(!new)>(s: seq<T>, p: T -> bool, q: T -> bool)
    requires forall x :: x in s ==> p(x) == q(x)
    ensures Filter(s, p) == Filter(s, q)
  {
    if s != [] {
      assert forall x :: x in s[1..] ==> x in s;
      FilterCongruent(s[1..], p, q);
    }
  }

  /** A filter that keeps no element of `s` yields the empty list. */
  lemma FilterKeepsNone<T(!new)>(s: seq<T>, keep: T -> bool)
    ensures (forall x :: x in s ==> !keep(x)) ==> Filter(s, keep) == []
  {
    var r := Filter(s, keep);
    if r != [] { assert r[0] in r; }
  }

  /** Filtering a filtered list by a stronger condition is filtering once. */
  lemma {:induction false} FilterFilter<T(!new)>(s: seq<T>, a: T -> bool, b: T -> bool)
    requires forall x :: x in s && b(x) ==> a(x)
    ensures Filter(Filter(s, a), b) == Filter(s, b)
  {
    if s != [] {
      assert forall x :: x in s[1..] ==> x in s;
      FilterFilter(s[1..], a, b);
      if a(s[0]) {
        assert Filter(s, a) == [s[0]] + Filter(s[1..], a);
        assert ([s[0]] + Filter(s[1..], a))[1..] == Filter(s[1..], a);
      }
    }
  }

  /** Filters by two conditions may be applied in either order. */
  lemma {:induction false} FilterCommute<T(!new)>(s: seq<T>, a: T -> bool, b: T -> bool)
    ensures Filter(Filter(s, a), b) == Filter(Filter(s, b), a)
  {
    if s != [] {
      FilterCommute(s[1..], a, b);
      var x := s[0];
      if a(x) {
        assert Filter(s, a) == [x] + Filter(s[1..], a);
        assert ([x] + Filter(s[1..], a))[1..] == Filter(s[1..], a);
      }
      if b(x) {
        assert Filter(s, b) == [x] + Filter(s[1..], b);
        assert ([x] + Filter(s[1..], b))[1..] == Filter(s[1..], b);
      }
    }
  }

  /** `s.map(f)`: `f` applied to every element, in order. */
  function Map<T, U>(s: seq<T>, f: T -> U): (r: seq<U>)
    ensures |r| == |s|
    ensures forall i :: 0 <= i < |s| ==> r[i] == f(s[i])
  {
    if s == [] then [] else [f(s[0])] + Map(s[1..], f)
  }

  /** Mapping distributes over concatenation. */
  lemma MapAppend<T, U>(a: seq<T>, b: seq<T>, f: T -> U)
    ensures Map(a + b, f) == Map(a, f) + Map(b, f)
  {
  }

  /** Two functions that agree on the elements of `s` map it alike. */
  lemma MapCongruent<T, U>(s: seq<T>, f: T -> U, g: T -> U)
    requires forall x :: x in s ==> f(x) == g(x)
    ensures Map(s, f) == Map(s, g)
  {
    assert forall i :: 0 <= i < |s| ==> s[i] in s;
  }

  /** Mapping after filtering equals filtering the mapped list whenever the
      kept elements are recognised the same way before and after `f`. */
  lemma {:induction false} MapFilter<T(!new), U(!new)>(s: seq<T>, f: T -> U, keep: T -> bool, keep': U -> bool)
    requires forall x :: x in s ==> keep(x) == keep'(f(x))
    ensures Map(Filter(s, keep), f) == Filter(Map(s, f), keep')
  {
    if s != [] {
      assert forall x :: x in s[1..] ==> x in s;
      MapFilter(s[1..], f, keep, keep');
      assert Map(s, f) == [f(s[0])] + Map(s[1..], f);
      assert Map(s, f)[1..] == Map(s[1..], f);
    }
  }

  /** No two entries of `s` share an identifier (a primary key). */
  ghost predicate UniqueIds<T>(s: seq<T>, id: T -> Id) {
    forall i, j :: 0 <= i < j < |s| ==> id(s[i]) != id(s[j])
  }

  /** With unique identifiers an element is determined by its identifier. */
  lemma SameIdSameEntry<T>(s: seq<T>, id: T -> Id, x: T, y: T)
    requires UniqueIds(s, id) && x in s && y in s && id(x) == id(y)
    ensures x == y
  {
    var i :| 0 <= i < |s| && s[i] == x;
    var j :| 0 <= j < |s| && s[j] == y;
    assert i == j;
  }

  /** A sub-list obtained by filtering keeps identifiers unique. */
  lemma {:induction false} FilterKeepsUniqueIds<T(!new)>(s: seq<T>, keep: T -> bool, id: T -> Id)
    requires UniqueIds(s, id)
    ensures UniqueIds(Filter(s, keep), id)
  {
    if s != [] {
      FilterKeepsUniqueIds(s[1..], keep, id);
      var rest := Filter(s[1..], keep);
      if keep(s[0]) {
        forall j | 0 <= j < |rest| ensures id(s[0]) != id(rest[j]) {
          assert rest[j] in s[1..];
          var k :| 0 <= k < |s[1..]| && s[1..][k] == rest[j];
          assert s[k + 1] == rest[j];
        }
      }
    }
  }
}
