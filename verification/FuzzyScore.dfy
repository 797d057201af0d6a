/**
 The search score of catalog-ranking.ts on normalized strings: hits on a substring rank ahead of everything that is
 only close in edit distance.
 */
module FuzzyScore {
  import opened EditDistance

  /** `Never` is positive infinity. */
  datatype Score = Never | Points(points: int)

  predicate Ahead(s: Score, t: Score) {
    s.Points? && (t.Points? ==> s.points < t.points)
  }

  predicate StartsWith(s: string, t: string) {
    |t| <= |s| && s[..|t|] == t
  }

  predicate Includes(s: string, t: string) {
    exists k :: 0 <= k <= |s| && StartsWith(s[k..], t)
  }

  /** split(" "): the text up to the first space, and so on; there is always at least one part. */
  function Split(s: string): (parts: seq<string>)
    ensures parts != []
  {
    if s == "" then [""]
    else
      var rest := Split(s[1..]);
      if s[0] == ' ' then [""] + rest else [[s[0]] + rest[0]] + rest[1..]
  }

  /** Math.min over the distances of the parts. */
  function NearestPart(needle: string, parts: seq<string>): nat
    requires parts != []
  {
    var d := Distance(needle, parts[0]);
    if |parts| == 1 then d else Min(d, NearestPart(needle, parts[1..]))
  }

  function FuzzySearchScore(needle: string, candidate: string): Score {
    if needle == "" || candidate == "" then Never
    else if StartsWith(candidate, needle) then Points(-20)
    else if Includes(candidate, needle) then Points(-10)
    else Points(Min(NearestPart(needle, Split(candidate)), Distance(needle, candidate)))
  }

  /** Joining the parts with single spaces gives the string back: splitting loses nothing. */
  function Join(parts: seq<string>): string
    requires parts != []
  {
    if |parts| == 1 then parts[0] else parts[0] + " " + Join(parts[1..])
  }

  lemma {:induction false} JoinSplit(s: string)
    ensures Join(Split(s)) == s
    ensures forall i :: 0 <= i < |Split(s)| ==> ' ' !in Split(s)[i]
  {
    if s != "" {
      JoinSplit(s[1..]);
      var rest := Split(s[1..]);
      if s[0] == ' ' {
        assert ([""] + rest)[1..] == rest;
      } else {
        assert ([[s[0]] + rest[0]] + rest[1..])[1..] == rest[1..];
      }
    }
  }

  lemma {:induction false} PartIncluded(parts: seq<string>, i: nat)
    requires i < |parts|
    ensures Includes(Join(parts), parts[i])
  {
    var s := Join(parts);
    if i == 0 {
      assert s[0..] == s && StartsWith(s[0..], parts[0]);
    } else {
      PartIncluded(parts[1..], i - 1);
      var rest := Join(parts[1..]);
      var k :| 0 <= k <= |rest| && StartsWith(rest[k..], parts[i]);
      assert s[|parts[0]| + 1 + k..] == rest[k..];
    }
  }

  lemma {:induction false} NearestIsLeast(needle: string, parts: seq<string>) returns (k: nat)
    requires parts != []
    ensures k < |parts| && NearestPart(needle, parts) == Distance(needle, parts[k])
    ensures forall i :: 0 <= i < |parts| ==> NearestPart(needle, parts) <= Distance(needle, parts[i])
  {
    k := 0;
    if |parts| > 1 {
      var rest := NearestIsLeast(needle, parts[1..]);
      if NearestPart(needle, parts) != Distance(needle, parts[0]) { k := rest + 1; }
      forall i | 0 <= i < |parts| ensures NearestPart(needle, parts) <= Distance(needle, parts[i]) {
        if i > 0 { assert parts[1..][i - 1] == parts[i]; }
      }
    }
  }

  /**
   A candidate that does not contain the needle scores at least one and at most its distance from the needle; the
   score is the least distance from the needle to the candidate or to one of its words.
   */
  lemma CloseScores(needle: string, candidate: string)
    requires needle != "" && candidate != "" && !Includes(candidate, needle)
    ensures var s := FuzzySearchScore(needle, candidate);
            && s.Points? && 1 <= s.points <= Distance(needle, candidate)
            && (forall i :: 0 <= i < |Split(candidate)| ==> s.points <= Distance(needle, Split(candidate)[i]))
            && (s.points == Distance(needle, candidate)
                || exists i :: 0 <= i < |Split(candidate)| && s.points == Distance(needle, Split(candidate)[i]))
  {
    var parts := Split(candidate);
    assert candidate[0..] == candidate;
    JoinSplit(candidate);
    var i := NearestIsLeast(needle, parts);
    PartIncluded(parts, i);
    ZeroOnlyWhenEqual(needle, parts[i]);
    ZeroOnlyWhenEqual(needle, candidate);
  }

  /** Every substring hit ranks strictly ahead of every candidate that is only close. */
  lemma SubstringsFirst(needle: string, hit: string, other: string)
    requires needle != "" && hit != "" && Includes(hit, needle) && !Includes(other, needle)
    ensures Ahead(FuzzySearchScore(needle, hit), FuzzySearchScore(needle, other))
  {
    if other != "" { CloseScores(needle, other); }
  }

  /** How a candidate answers the needle: it begins with it, holds it further in, holds other text, or is empty. */
  datatype Kind = Prefix | Inner | Close | Empty

  ghost predicate IsKind(needle: string, candidate: string, kind: Kind) {
    match kind
    case Prefix => StartsWith(candidate, needle)
    case Inner => !StartsWith(candidate, needle) && Includes(candidate, needle)
    case Close => !Includes(candidate, needle) && candidate != ""
    case Empty => candidate == ""
  }

  function Rank(kind: Kind): nat {
    match kind
    case Prefix => 0
    case Inner => 1
    case Close => 2
    case Empty => 3
  }

  /**
   The kinds rank strictly one behind the other, hits of the same kind tie, and only an empty candidate has no score; an
   empty needle scores nothing.
   */
  lemma RanksByKind(needle: string, a: string, b: string, ka: Kind, kb: Kind)
    requires needle != "" && IsKind(needle, a, ka) && IsKind(needle, b, kb)
    ensures Rank(ka) < Rank(kb) ==> Ahead(FuzzySearchScore(needle, a), FuzzySearchScore(needle, b))
    ensures ka == kb && (ka == Prefix || ka == Inner) ==>
              FuzzySearchScore(needle, a) == FuzzySearchScore(needle, b)
              && !Ahead(FuzzySearchScore(needle, a), FuzzySearchScore(needle, b))
    ensures FuzzySearchScore(needle, a) == Never <==> ka == Empty
    ensures FuzzySearchScore("", a) == Never
  {
    assert forall c: string :: c[0..] == c;
    if ka == Close { CloseScores(needle, a); }
    if kb == Close { CloseScores(needle, b); }
  }
}
