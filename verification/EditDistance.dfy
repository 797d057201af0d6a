/**
 The edit distance of catalog-ranking.ts on normalized strings: the recursive definition, the one-row loop that
 computes it, and the proof that it is the length of a shortest editing script.
 */
module EditDistance {

  function Min(a: nat, b: nat): nat { if a <= b then a else b }

  function Cost(a: char, b: char): nat { if a == b then 0 else 1 }

  function Init<T>(s: seq<T>): seq<T>
    requires s != []
  {
    s[..|s| - 1]
  }

  function Last<T>(s: seq<T>): T
    requires s != []
  {
    s[|s| - 1]
  }

  function Distance(a: string, b: string): nat
    decreases |a| + |b|
  {
    if a == "" then |b|
    else if b == "" then |a|
    else Min(Min(Distance(Init(a), b) + 1, Distance(a, Init(b)) + 1),
             Distance(Init(a), Init(b)) + Cost(Last(a), Last(b)))
  }

  /** The distance of the first i characters of a to the first j of b. */
  function Prefixes(a: string, i: nat, b: string, j: nat): nat
    requires i <= |a| && j <= |b|
  {
    Distance(a[..i], b[..j])
  }

  lemma {:induction false} Step(a: string, b: string)
    requires a != "" && b != ""
    ensures Distance(a, b) == Min(Min(Distance(Init(a), b) + 1, Distance(a, Init(b)) + 1),
                                  Distance(Init(a), Init(b)) + Cost(Last(a), Last(b)))
  {
  }

  lemma Cell(a: string, i: nat, b: string, j: nat)
    requires 1 <= i <= |a| && 1 <= j <= |b|
    ensures Prefixes(a, i, b, j) == Min(Min(Prefixes(a, i - 1, b, j) + 1, Prefixes(a, i, b, j - 1) + 1),
                                        Prefixes(a, i - 1, b, j - 1) + Cost(a[i - 1], b[j - 1]))
  {
    var x, y := a[..i], b[..j];
    assert Init(x) == a[..i - 1] && Init(y) == b[..j - 1];
    Step(x, y);
  }

  /** editDistance: the row holds the distances of one prefix of `left` to every prefix of `right`. */
  method ComputeDistance(left: string, right: string) returns (d: nat)
    ensures d == Distance(left, right)
  {
    var row := new nat[|right| + 1](index => index);
    var leftIndex := 1;
    while leftIndex <= |left|
      invariant 1 <= leftIndex <= |left| + 1
      invariant forall j :: 0 <= j <= |right| ==> row[j] == Prefixes(left, leftIndex - 1, right, j)
    {
      NextRow(row, left, leftIndex, right);
      leftIndex := leftIndex + 1;
    }
    assert left[..|left|] == left && right[..|right|] == right;
    assert row[|right|] == Prefixes(left, |left|, right, |right|);
    d := row[|right|];
  }

  /** The inner loop: the row moves on to the next prefix of `left`, in place. */
  method NextRow(row: array<nat>, left: string, leftIndex: nat, right: string)
    requires row.Length == |right| + 1 && 1 <= leftIndex <= |left|
    requires forall j :: 0 <= j <= |right| ==> row[j] == Prefixes(left, leftIndex - 1, right, j)
    modifies row
    ensures forall j :: 0 <= j <= |right| ==> row[j] == Prefixes(left, leftIndex, right, j)
  {
    var diagonal := row[0];
    row[0] := leftIndex;
    var rightIndex := 1;
    while rightIndex <= |right|
      invariant 1 <= rightIndex <= |right| + 1
      invariant diagonal == Prefixes(left, leftIndex - 1, right, rightIndex - 1)
      invariant forall j :: 0 <= j < rightIndex ==> row[j] == Prefixes(left, leftIndex, right, j)
      invariant forall j :: rightIndex <= j <= |right| ==> row[j] == Prefixes(left, leftIndex - 1, right, j)
    {
      var previous := row[rightIndex];
      Cell(left, leftIndex, right, rightIndex);
      row[rightIndex] := Min(Min(row[rightIndex] + 1, row[rightIndex - 1] + 1),
                             diagonal + Cost(left[leftIndex - 1], right[rightIndex - 1]));
      diagonal := previous;
      rightIndex := rightIndex + 1;
    }
  }

  // ----- editing scripts -----

  datatype Edit = Insert(at: nat, c: char) | Delete(at: nat) | Substitute(at: nat, c: char)

  predicate Fits(e: Edit, s: string) {
    match e
    case Insert(at, _) => at <= |s|
    case Delete(at) => at < |s|
    case Substitute(at, _) => at < |s|
  }

  function Apply(e: Edit, s: string): string
    requires Fits(e, s)
  {
    match e
    case Insert(at, c) => s[..at] + [c] + s[at..]
    case Delete(at) => s[..at] + s[at + 1..]
    case Substitute(at, c) => s[at := c]
  }

  /** The script turns a into b, one edit after the other. */
  ghost predicate Turns(script: seq<Edit>, a: string, b: string)
    decreases |script|
  {
    if script == [] then a == b
    else Fits(script[0], a) && Turns(script[1..], Apply(script[0], a), b)
  }

  // ----- no script is shorter -----

  /** Dropping or keeping one more last character changes the distance by at most one. */
  lemma {:induction false} LastCharacter(a: string, c: char, b: string)
    ensures Distance(a + [c], b) <= Distance(a, b) + 1
    ensures Distance(a, b) <= Distance(a + [c], b) + 1
    decreases |b|
  {
    assert Init(a + [c]) == a;
    if b != "" {
      LastCharacter(a, c, Init(b));
      FewerRight(a, b);
    } else if a != "" {
    }
  }

  lemma FewerRight(a: string, b: string)
    requires b != ""
    ensures Distance(a, b) <= Distance(a, Init(b)) + 1
  {
  }

  ghost predicate Near(x: string, y: string) {
    forall b :: Distance(x, b) <= Distance(y, b) + 1
  }

  lemma {:induction false} NearWithTail(x: string, y: string, tail: string, b: string)
    requires Near(x, y)
    ensures Distance(x + tail, b) <= Distance(y + tail, b) + 1
    decreases |tail| + |b|
  {
    if tail == "" {
      assert x + tail == x && y + tail == y;
    } else {
      assert Init(x + tail) == x + Init(tail) && Init(y + tail) == y + Init(tail);
      if b == "" {
        assert Distance(x, "") == |x| && Distance(y, "") == |y|;
      } else {
        NearWithTail(x, y, Init(tail), b);
        NearWithTail(x, y, tail, Init(b));
        NearWithTail(x, y, Init(tail), Init(b));
      }
    }
  }

  lemma NearLast(a: string, c: char, d: char)
    ensures Near(a, a + [c]) && Near(a + [c], a) && Near(a + [c], a + [d])
  {
    forall b
      ensures Distance(a, b) <= Distance(a + [c], b) + 1
      ensures Distance(a + [c], b) <= Distance(a, b) + 1
      ensures Distance(a + [c], b) <= Distance(a + [d], b) + 1
    {
      LastCharacter(a, c, b);
      ReplaceLast(a, c, d, b);
    }
  }

  lemma {:induction false} ReplaceLast(a: string, c: char, d: char, b: string)
    ensures Distance(a + [c], b) <= Distance(a + [d], b) + 1
    decreases |b|
  {
    assert Init(a + [c]) == a && Init(a + [d]) == a;
    if b != "" { ReplaceLast(a, c, d, Init(b)); }
  }

  /** One edit anywhere in the string changes its distance to any other by at most one. */
  lemma OneEdit(e: Edit, s: string, b: string)
    requires Fits(e, s)
    ensures Distance(s, b) <= Distance(Apply(e, s), b) + 1
  {
    match e
    case Insert(at, c) => OneInsert(s[..at], c, s[at..], b); assert s[..at] + s[at..] == s;
    case Delete(at) => OneDelete(s[..at], s[at], s[at + 1..], b); assert s[..at] + [s[at]] + s[at + 1..] == s;
    case Substitute(at, c) =>
      OneSubstitute(s[..at], s[at], c, s[at + 1..], b);
      assert s[..at] + [s[at]] + s[at + 1..] == s && s[..at] + [c] + s[at + 1..] == s[at := c];
  }

  lemma OneInsert(front: string, c: char, tail: string, b: string)
    ensures Distance(front + tail, b) <= Distance(front + [c] + tail, b) + 1
  {
    NearLast(front, c, c);
    NearWithTail(front, front + [c], tail, b);
  }

  lemma OneDelete(front: string, c: char, tail: string, b: string)
    ensures Distance(front + [c] + tail, b) <= Distance(front + tail, b) + 1
  {
    NearLast(front, c, c);
    NearWithTail(front + [c], front, tail, b);
  }

  lemma OneSubstitute(front: string, c: char, d: char, tail: string, b: string)
    ensures Distance(front + [c] + tail, b) <= Distance(front + [d] + tail, b) + 1
  {
    NearLast(front, c, d);
    NearWithTail(front + [c], front + [d], tail, b);
  }

  lemma {:induction false} NoScriptIsShorter(script: seq<Edit>, a: string, b: string)
    requires Turns(script, a, b)
    ensures Distance(a, b) <= |script|
    decreases |script|
  {
    if script == [] {
      ZeroOnSelf(a);
    } else {
      OneEdit(script[0], a, b);
      NoScriptIsShorter(script[1..], Apply(script[0], a), b);
    }
  }

  // ----- some script attains the distance -----

  lemma EditWithTail(e: Edit, a: string, tail: string)
    requires Fits(e, a)
    ensures Fits(e, a + tail) && Apply(e, a + tail) == Apply(e, a) + tail
  {
    match e
    case Insert(at, c) => assert (a + tail)[at..] == a[at..] + tail;
    case Delete(at) => assert (a + tail)[at + 1..] == a[at + 1..] + tail;
    case Substitute(at, c) =>
  }

  /** A script also works in front of a tail it does not touch. */
  lemma {:induction false} TurnsWithTail(script: seq<Edit>, a: string, b: string, tail: string)
    requires Turns(script, a, b)
    ensures Turns(script, a + tail, b + tail)
    decreases |script|
  {
    if script != [] {
      var e := script[0];
      EditWithTail(e, a, tail);
      TurnsWithTail(script[1..], Apply(e, a), b, tail);
    }
  }

  lemma {:induction false} TurnsThen(s1: seq<Edit>, s2: seq<Edit>, a: string, b: string, c: string)
    requires Turns(s1, a, b) && Turns(s2, b, c)
    ensures Turns(s1 + s2, a, c)
    decreases |s1|
  {
    if s1 == [] {
      assert s1 + s2 == s2;
    } else {
      assert (s1 + s2)[1..] == s1[1..] + s2;
      TurnsThen(s1[1..], s2, Apply(s1[0], a), b, c);
    }
  }

  lemma InsertAll(b: string) returns (script: seq<Edit>)
    ensures Turns(script, "", b) && |script| == |b|
    decreases |b|
  {
    if b == "" { return []; }
    var less := InsertAll(Init(b));
    var e := Insert(|b| - 1, Last(b));
    assert Apply(e, Init(b)) == b;
    assert Turns([e], Init(b), b);
    TurnsThen(less, [e], "", Init(b), b);
    script := less + [e];
  }

  lemma DeleteAll(a: string) returns (script: seq<Edit>)
    ensures Turns(script, a, "") && |script| == |a|
    decreases |a|
  {
    if a == "" { return []; }
    var less := DeleteAll(a[1..]);
    assert Apply(Delete(0), a) == a[1..];
    script := [Delete(0)] + less;
    assert script[1..] == less;
  }

  /** One more edit after a script, or the same script in front of an equal last character. */
  lemma BestScript(a: string, b: string) returns (script: seq<Edit>)
    ensures Turns(script, a, b) && |script| == Distance(a, b)
    decreases |a| + |b|
  {
    if a == "" { script := InsertAll(b); return; }
    if b == "" { script := DeleteAll(a); return; }
    var x, y := Last(a), Last(b);
    assert Init(a) + [x] == a && Init(b) + [y] == b;
    if Distance(a, b) == Distance(Init(a), b) + 1 {
      var less := BestScript(Init(a), b);
      assert Apply(Delete(|a| - 1), a) == Init(a);
      script := [Delete(|a| - 1)] + less;
      assert script[1..] == less;
    } else if Distance(a, b) == Distance(a, Init(b)) + 1 {
      var less := BestScript(a, Init(b));
      var e := Insert(|b| - 1, y);
      assert Apply(e, Init(b)) == b && Turns([e], Init(b), b);
      TurnsThen(less, [e], a, Init(b), b);
      script := less + [e];
    } else {
      var less := BestScript(Init(a), Init(b));
      TurnsWithTail(less, Init(a), Init(b), [x]);
      if x == y { return less; }
      var e := Substitute(|b| - 1, y);
      assert Apply(e, Init(b) + [x]) == b && Turns([e], Init(b) + [x], b);
      TurnsThen(less, [e], a, Init(b) + [x], b);
      script := less + [e];
    }
  }

  /** The distance is the length of a shortest script: one attains it and none is shorter. */
  lemma DistanceIsShortest(a: string, b: string)
    ensures exists script :: Turns(script, a, b) && |script| == Distance(a, b)
    ensures forall script :: Turns(script, a, b) ==> Distance(a, b) <= |script|
  {
    var best := BestScript(a, b);
    forall script | Turns(script, a, b) ensures Distance(a, b) <= |script| { NoScriptIsShorter(script, a, b); }
  }

  // ----- a metric -----

  lemma {:induction false} ZeroOnSelf(a: string)
    ensures Distance(a, a) == 0
    decreases |a|
  {
    if a != "" { ZeroOnSelf(Init(a)); }
  }

  lemma {:induction false} ZeroOnlyWhenEqual(a: string, b: string)
    ensures Distance(a, b) == 0 <==> a == b
    decreases |a|
  {
    if a == b { ZeroOnSelf(a); }
    if Distance(a, b) == 0 && a != "" {
      ZeroOnlyWhenEqual(Init(a), Init(b));
      assert a == Init(a) + [Last(a)] && b == Init(b) + [Last(b)];
    }
  }

  lemma {:induction false} Symmetric(a: string, b: string)
    ensures Distance(a, b) == Distance(b, a)
    decreases |a| + |b|
  {
    if a != "" && b != "" {
      Symmetric(Init(a), b);
      Symmetric(a, Init(b));
      Symmetric(Init(a), Init(b));
    }
  }

  /** Following one shortest script by another is a script. */
  lemma Triangle(a: string, b: string, c: string)
    ensures Distance(a, c) <= Distance(a, b) + Distance(b, c)
  {
    var s1 := BestScript(a, b);
    var s2 := BestScript(b, c);
    TurnsThen(s1, s2, a, b, c);
    NoScriptIsShorter(s1 + s2, a, c);
  }
}
