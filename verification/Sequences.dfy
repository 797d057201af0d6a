/** Stable sorting by a comparison, and flattening: what they keep when the input is permuted. */
module Sequences {

  // ----- stable sorting -----

  ghost predicate TotalPreorder<T(!new)>(leq: (T, T) -> bool) {
    && (forall a, b :: leq(a, b) || leq(b, a))
    && (forall a, b, c :: leq(a, b) && leq(b, c) ==> leq(a, c))
  }

  ghost predicate TotalOrder<T(!new)>(leq: (T, T) -> bool) {
    TotalPreorder(leq) && forall a, b :: leq(a, b) && leq(b, a) ==> a == b
  }

  function Insert<T>(leq: (T, T) -> bool, x: T, s: seq<T>): seq<T> {
    if s == [] || leq(x, s[0]) then [x] + s else [s[0]] + Insert(leq, x, s[1..])
  }

  /** Equal elements keep their order. */
  function Sort<T>(leq: (T, T) -> bool, s: seq<T>): seq<T> {
    if s == [] then [] else Insert(leq, s[0], Sort(leq, s[1..]))
  }

  ghost predicate Sorted<T>(leq: (T, T) -> bool, s: seq<T>) {
    forall i, j :: 0 <= i < j < |s| ==> leq(s[i], s[j])
  }

  lemma {:induction false} InsertResult<T(!new)>(leq: (T, T) -> bool, x: T, s: seq<T>)
    requires TotalPreorder(leq) && Sorted(leq, s)
    ensures Sorted(leq, Insert(leq, x, s)) && multiset(Insert(leq, x, s)) == multiset{x} + multiset(s)
  {
    if s != [] && !leq(x, s[0]) {
      InsertResult(leq, x, s[1..]);
      assert s == [s[0]] + s[1..];
      var t := Insert(leq, x, s[1..]);
      forall i | 0 <= i < |t| ensures leq(s[0], t[i]) {
        assert t[i] in multiset(t);
        assert t[i] == x || t[i] in s[1..];
      }
    } else if s != [] {
      forall i | 0 <= i < |s| ensures leq(x, s[i]) { assert i == 0 || leq(s[0], s[i]); }
    }
  }

  lemma {:induction false} SortResult<T(!new)>(leq: (T, T) -> bool, s: seq<T>)
    requires TotalPreorder(leq)
    ensures Sorted(leq, Sort(leq, s)) && multiset(Sort(leq, s)) == multiset(s)
  {
    if s != [] {
      SortResult(leq, s[1..]);
      InsertResult(leq, s[0], Sort(leq, s[1..]));
      assert s == [s[0]] + s[1..];
    }
  }

  lemma Without<T>(s: seq<T>, j: nat)
    requires j < |s|
    ensures multiset(s[..j] + s[j + 1..]) == multiset(s) - multiset{s[j]}
  {
    assert s == s[..j] + [s[j]] + s[j + 1..];
  }

  lemma SameLength<T>(s: seq<T>, t: seq<T>)
    requires multiset(s) == multiset(t)
    ensures |s| == |t|
  {
    assert |multiset(s)| == |s| && |multiset(t)| == |t|;
  }

  lemma SameHead<T>(leq: (T, T) -> bool, s: seq<T>, t: seq<T>)
    requires s != [] && t != [] && Sorted(leq, s) && Sorted(leq, t) && leq(s[0], s[0]) && leq(t[0], t[0])
    requires multiset(s) == multiset(t) && Separates(leq, s)
    ensures s[0] == t[0]
  {
    assert s[0] in multiset(t) && t[0] in multiset(s);
    var i :| 0 <= i < |s| && s[i] == t[0];
    var j :| 0 <= j < |t| && t[j] == s[0];
    assert leq(s[0], t[0]) && leq(t[0], s[0]);
  }

  /** Different elements of the sequence never compare as equal. */
  ghost predicate Separates<T>(leq: (T, T) -> bool, s: seq<T>) {
    forall a, b :: a in multiset(s) && b in multiset(s) && leq(a, b) && leq(b, a) ==> a == b
  }

  lemma HeadOff<T>(s: seq<T>)
    requires s != []
    ensures multiset(s) == multiset(s[1..]) + multiset{s[0]} && multiset(s[1..]) == multiset(s) - multiset{s[0]}
  {
    assert s == [s[0]] + s[1..];
  }

  lemma SameTail<T>(s: seq<T>, t: seq<T>)
    requires s != [] && t != [] && s[0] == t[0] && multiset(s) == multiset(t)
    ensures multiset(s[1..]) == multiset(t[1..])
  {
    HeadOff(s);
    HeadOff(t);
  }

  lemma SortedTail<T>(leq: (T, T) -> bool, s: seq<T>)
    requires s != [] && Sorted(leq, s)
    ensures Sorted(leq, s[1..])
  {
  }

  lemma TailKeeps<T>(leq: (T, T) -> bool, s: seq<T>)
    requires s != [] && Sorted(leq, s) && Separates(leq, s)
    ensures Sorted(leq, s[1..]) && Separates(leq, s[1..])
  {
    assert s == [s[0]] + s[1..];
    assert multiset(s) == multiset{s[0]} + multiset(s[1..]);
  }

  lemma {:induction false} SortedUnique<T(!new)>(leq: (T, T) -> bool, s: seq<T>, t: seq<T>)
    requires (forall a :: leq(a, a)) && Sorted(leq, s) && Sorted(leq, t) && multiset(s) == multiset(t)
             && Separates(leq, s)
    ensures s == t
  {
    SameLength(s, t);
    if s != [] {
      SameHead(leq, s, t);
      SameTail(s, t);
      TailKeeps(leq, s);
      SortedTail(leq, t);
      SortedUnique(leq, s[1..], t[1..]);
      assert s == [s[0]] + s[1..] && t == [t[0]] + t[1..];
    }
  }

  /** Sorting forgets the order of the input when it separates the elements. */
  lemma SortIgnoresOrder<T(!new)>(leq: (T, T) -> bool, s: seq<T>, t: seq<T>)
    requires TotalPreorder(leq) && multiset(s) == multiset(t) && Separates(leq, s)
    ensures Sort(leq, s) == Sort(leq, t)
  {
    SortResult(leq, s);
    SortResult(leq, t);
    assert Separates(leq, Sort(leq, s));
    SortedUnique(leq, Sort(leq, s), Sort(leq, t));
  }

  // ----- flattening -----

  function FlatMap<T, U>(f: T -> seq<U>, s: seq<T>): seq<U> {
    if s == [] then [] else FlatMap(f, s[..|s| - 1]) + f(s[|s| - 1])
  }

  lemma {:induction false} FlatMapAppend<T, U>(f: T -> seq<U>, s: seq<T>, t: seq<T>)
    ensures FlatMap(f, s + t) == FlatMap(f, s) + FlatMap(f, t)
  {
    if t == [] {
      assert s + t == s;
    } else {
      assert (s + t)[..|s + t| - 1] == s + t[..|t| - 1];
      FlatMapAppend(f, s, t[..|t| - 1]);
    }
  }

  /** One element further. */
  lemma FlatMapNext<T, U>(f: T -> seq<U>, s: seq<T>, k: nat)
    requires k < |s|
    ensures FlatMap(f, s[..k + 1]) == FlatMap(f, s[..k]) + f(s[k])
  {
    assert s[..k + 1][..k] == s[..k];
  }

  lemma FlatMapOne<T, U>(f: T -> seq<U>, x: T)
    ensures FlatMap(f, [x]) == f(x)
  {
    assert [x][..0] == [];
  }

  /** Permuting the input permutes the output. */
  lemma {:induction false} FlatMapPermutes<T, U>(f: T -> seq<U>, s: seq<T>, t: seq<T>)
    requires multiset(s) == multiset(t)
    ensures multiset(FlatMap(f, s)) == multiset(FlatMap(f, t))
  {
    if s == [] {
      SameLength(s, t);
    } else {
      var front, back := TakeLast(s, t);
      FlatMapPermutes(f, s[..|s| - 1], front + back);
      FlatMapWithout(f, t, front, s[|s| - 1], back);
    }
  }

  /** The last element of one sequence, found in a permutation of it. */
  lemma TakeLast<T>(s: seq<T>, t: seq<T>) returns (front: seq<T>, back: seq<T>)
    requires s != [] && multiset(s) == multiset(t)
    ensures t == front + [s[|s| - 1]] + back && multiset(s[..|s| - 1]) == multiset(front + back)
  {
    var n := |s| - 1;
    assert s[n] in multiset(t);
    var j :| 0 <= j < |t| && t[j] == s[n];
    Without(s, n);
    Without(t, j);
    assert s[..n] + s[n + 1..] == s[..n];
    front, back := t[..j], t[j + 1..];
  }

  /** The flattening of a sequence split around one element. */
  lemma FlatMapSplit<T, U>(f: T -> seq<U>, t: seq<T>, front: seq<T>, x: T, back: seq<T>)
    requires t == front + [x] + back
    ensures FlatMap(f, t) == FlatMap(f, front) + f(x) + FlatMap(f, back)
  {
    FlatMapAppend(f, front + [x], back);
    FlatMapAppend(f, front, [x]);
    FlatMapOne(f, x);
  }

  lemma FlatMapWithout<T, U>(f: T -> seq<U>, t: seq<T>, front: seq<T>, x: T, back: seq<T>)
    requires t == front + [x] + back
    ensures multiset(FlatMap(f, t)) == multiset(FlatMap(f, front + back)) + multiset(f(x))
  {
    FlatMapSplit(f, t, front, x, back);
    FlatMapAppend(f, front, back);
    MiddleOut(FlatMap(f, front), f(x), FlatMap(f, back));
  }

  lemma MiddleOut<U>(a: seq<U>, b: seq<U>, c: seq<U>)
    ensures multiset(a + b + c) == multiset(a + c) + multiset(b)
  {
  }
}
