/** Mesh paths of a node and the two ways the pull cycle promotes an alternate path to primary. */
module Paths {
  import opened Bytes

  /** A route through the mesh: the hop count and four address bytes per hop. */
  datatype PathInfo = PathInfo(hopCount: int, path: seq<byte>)

  /** The path lists of one node. */
  datatype NodePaths = NodePaths(primary: PathInfo, alternates: seq<PathInfo>)

  /** Rotate: the alternate leaves its place and the old primary goes to the back.
      Rebuild: the old primary goes to the front and every copy of the promoted path is filtered out. */
  datatype Promotion = Rotate(index: nat) | Rebuild(index: nat)

  /** Drops every copy of a path from a list. */
  function Without(s: seq<PathInfo>, p: PathInfo): (r: seq<PathInfo>)
  {
    if s == [] then []
    else Without(s[..|s| - 1], p) + (if s[|s| - 1] == p then [] else [s[|s| - 1]])
  }

  predicate CanApply(n: NodePaths, p: Promotion) {
    p.index < |n.alternates|
  }

  function Apply(n: NodePaths, p: Promotion): NodePaths
    requires CanApply(n, p)
  {
    var chosen := n.alternates[p.index];
    match p
    case Rotate(i) => NodePaths(chosen, n.alternates[..i] + n.alternates[i + 1..] + [n.primary])
    case Rebuild(_) => NodePaths(chosen, [n.primary] + Without(n.alternates, chosen))
  }

  /** Every promotion of the list picks an alternate that exists when its turn comes. */
  predicate CanApplyAll(n: NodePaths, ps: seq<Promotion>)
    decreases |ps|
  {
    ps == [] || (CanApply(n, ps[0]) && CanApplyAll(Apply(n, ps[0]), ps[1..]))
  }

  function ApplyAll(n: NodePaths, ps: seq<Promotion>): NodePaths
    requires CanApplyAll(n, ps)
    decreases |ps|
  {
    if ps == [] then n else ApplyAll(Apply(n, ps[0]), ps[1..])
  }

  /** All paths of a node, primary first. */
  function Listing(n: NodePaths): seq<PathInfo> {
    [n.primary] + n.alternates
  }

  /** The paths a node knows, regardless of order and copies. */
  function Known(n: NodePaths): set<PathInfo> {
    set p | p in Listing(n)
  }

  predicate Distinct(s: seq<PathInfo>) {
    forall i, j :: 0 <= i < j < |s| ==> s[i] != s[j]
  }

  lemma {:induction false} WithoutFacts(s: seq<PathInfo>, p: PathInfo)
    ensures forall x :: x in Without(s, p) <==> x in s && x != p
    ensures multiset(Without(s, p)) == multiset(s)[p := 0]
    ensures |Without(s, p)| == |s| - multiset(s)[p]
  {
    if s != [] {
      var last := s[|s| - 1];
      assert s == s[..|s| - 1] + [last];
      WithoutFacts(s[..|s| - 1], p);
    }
  }

  /** One promotion keeps the set of known paths and never lengthens the alternate list. */
  lemma PromotionKeepsPaths(n: NodePaths, p: Promotion)
    requires CanApply(n, p)
    ensures Known(Apply(n, p)) == Known(n)
    ensures |Apply(n, p).alternates| <= |n.alternates|
  {
    var s, i := n.alternates, p.index;
    assert s == s[..i] + [s[i]] + s[i + 1..];
    WithoutFacts(s, s[i]);
    assert s[i] in multiset(s);
  }

  /** Any sequence of promotions keeps the set of known paths and never lengthens the list. */
  lemma {:induction false} PathsConserved(n: NodePaths, ps: seq<Promotion>)
    requires CanApplyAll(n, ps)
    ensures Known(ApplyAll(n, ps)) == Known(n)
    ensures |ApplyAll(n, ps).alternates| <= |n.alternates|
    decreases |ps|
  {
    if ps != [] {
      PromotionKeepsPaths(n, ps[0]);
      PathsConserved(Apply(n, ps[0]), ps[1..]);
    }
  }

  lemma RotateKeepsCopies(n: NodePaths, i: nat)
    requires i < |n.alternates|
    ensures multiset(Listing(Apply(n, Rotate(i)))) == multiset(Listing(n))
  {
    var s := n.alternates;
    var before, behind := s[..i], s[i + 1..];
    assert s == before + [s[i]] + behind;
    assert multiset(Listing(Apply(n, Rotate(i)))) == multiset{s[i]} + multiset(before) + multiset(behind) + multiset{n.primary};
  }

  /** What a rebuild does to the copies: the promoted path is left exactly once, plus the old primary. */
  lemma RebuildCopies(n: NodePaths, i: nat)
    requires i < |n.alternates|
    ensures var x := n.alternates[i];
      multiset(Listing(Apply(n, Rebuild(i)))) == multiset{x, n.primary} + multiset(n.alternates)[x := 0] &&
      multiset(Listing(n)) == multiset{n.primary} + multiset(n.alternates)
  {
    WithoutFacts(n.alternates, n.alternates[i]);
  }

  /** Exactly when one promotion keeps the paths as a multiset: a rebuild does so only
      if the promoted path occurs once among the alternates. */
  lemma PromotionKeepsCopiesIff(n: NodePaths, p: Promotion)
    requires CanApply(n, p)
    ensures multiset(Listing(Apply(n, p))) == multiset(Listing(n))
       <==> (p.Rotate? || multiset(n.alternates)[n.alternates[p.index]] == 1)
  {
    if p.Rotate? {
      RotateKeepsCopies(n, p.index);
    } else {
      var x, m := n.alternates[p.index], multiset(n.alternates);
      RebuildCopies(n, p.index);
      var after := multiset{x, n.primary} + m[x := 0];
      var before := multiset{n.primary} + m;
      assert after[x] == before[x] - m[x] + 1;
    }
  }

  /** An alternate has become primary, the others have kept their order, and the old primary is last. */
  predicate MovedUp(n: NodePaths, m: NodePaths, i: nat) {
    i < |n.alternates| == |m.alternates| && m.primary == n.alternates[i] && m.alternates[|m.alternates| - 1] == n.primary &&
    forall k :: 0 <= k < |n.alternates| && k != i ==> m.alternates[if k < i then k else k - 1] == n.alternates[k]
  }

  lemma RotationMovesUp(n: NodePaths, i: nat)
    requires i < |n.alternates|
    ensures MovedUp(n, Apply(n, Rotate(i)), i)
  {
  }

  /** A path has become primary and the old primary is first; every other path has moved up by the copies
      of the new primary in front of it. */
  predicate RebuiltAround(n: NodePaths, m: NodePaths, p: PathInfo) {
    m.primary == p && |m.alternates| == 1 + |n.alternates| - multiset(n.alternates)[p] && m.alternates[0] == n.primary &&
    forall k :: 0 <= k < |n.alternates| && n.alternates[k] != p ==>
      var at := 1 + k - multiset(n.alternates[..k])[p]; 0 < at < |m.alternates| && m.alternates[at] == n.alternates[k]
  }

  lemma {:induction false} WithoutKeepsOrder(s: seq<PathInfo>, p: PathInfo, k: nat)
    requires k < |s| && s[k] != p
    ensures var at := k - multiset(s[..k])[p]; 0 <= at < |Without(s, p)| && Without(s, p)[at] == s[k]
    decreases |s|
  {
    var before := s[..|s| - 1];
    if k < |before| {
      assert before[..k] == s[..k];
      WithoutKeepsOrder(before, p, k);
    } else {
      WithoutFacts(before, p);
    }
  }

  lemma RebuildKeepsOrder(n: NodePaths, i: nat)
    requires i < |n.alternates|
    ensures RebuiltAround(n, Apply(n, Rebuild(i)), n.alternates[i])
  {
    var p := n.alternates[i];
    WithoutFacts(n.alternates, p);
    forall k | 0 <= k < |n.alternates| && n.alternates[k] != p
      ensures var at := 1 + k - multiset(n.alternates[..k])[p];
        0 < at < |Apply(n, Rebuild(i)).alternates| && Apply(n, Rebuild(i)).alternates[at] == n.alternates[k]
    {
      WithoutKeepsOrder(n.alternates, p, k);
    }
  }

  lemma OnceIfDistinct(s: seq<PathInfo>, x: PathInfo)
    requires Distinct(s) && x in s
    ensures multiset(s)[x] == 1
  {
    var i :| 0 <= i < |s| && s[i] == x;
    var before, behind := s[..i], s[i + 1..];
    assert s == before + [x] + behind;
    assert x !in before && x !in behind;
    assert multiset(s) == multiset(before) + multiset{x} + multiset(behind);
  }

  lemma TwiceIfEqual(s: seq<PathInfo>, i: nat, j: nat)
    requires i < j < |s| && s[i] == s[j]
    ensures multiset(s)[s[i]] >= 2
  {
    var a, b := s[..j], s[j..];
    assert s == a + b && a[i] == s[i] && b[0] == s[i];
    assert multiset(s) == multiset(a) + multiset(b);
    assert s[i] in a && s[i] in b;
  }

  lemma DistinctIffSingle(s: seq<PathInfo>)
    ensures Distinct(s) <==> forall x :: x in s ==> multiset(s)[x] == 1
  {
    if Distinct(s) {
      forall x | x in s ensures multiset(s)[x] == 1 {
        OnceIfDistinct(s, x);
      }
    } else {
      var i, j :| 0 <= i < j < |s| && s[i] == s[j];
      TwiceIfEqual(s, i, j);
      assert s[i] in s;
    }
  }

  /** From distinct paths every sequence of promotions keeps the multiset. */
  lemma {:induction false} DistinctKeepsCopies(n: NodePaths, ps: seq<Promotion>)
    requires Distinct(Listing(n)) && CanApplyAll(n, ps)
    ensures multiset(Listing(ApplyAll(n, ps))) == multiset(Listing(n))
    decreases |ps|
  {
    if ps != [] {
      var s, i := n.alternates, ps[0].index;
      DistinctIffSingle(Listing(n));
      assert Listing(n) == [n.primary] + s;
      assert s[i] in s && s[i] in Listing(n);
      assert multiset(Listing(n)) == multiset{n.primary} + multiset(s);
      assert s[i] in multiset(s);
      PromotionKeepsCopiesIff(n, ps[0]);
      var next := Apply(n, ps[0]);
      DistinctIffSingle(Listing(next));
      forall x | x in Listing(next) ensures multiset(Listing(next))[x] == 1 {
        assert x in multiset(Listing(next));
      }
      DistinctKeepsCopies(next, ps[1..]);
    }
  }

  /** A lone alternate equal to the primary is a fixed point of every promotion. */
  lemma {:induction false} TwinKeepsCopies(n: NodePaths, ps: seq<Promotion>)
    requires n.alternates == [n.primary] && CanApplyAll(n, ps)
    ensures ApplyAll(n, ps) == n
    decreases |ps|
  {
    if ps != [] {
      assert Without(n.alternates[..0], n.primary) == [];
      assert Apply(n, ps[0]) == n;
      TwinKeepsCopies(n, ps[1..]);
    }
  }

  ghost predicate CopiesAlwaysKept(n: NodePaths) {
    forall ps: seq<Promotion> :: CanApplyAll(n, ps) ==> multiset(Listing(ApplyAll(n, ps))) == multiset(Listing(n))
  }

  /** A path listed twice among the alternates: rebuilding around it loses a copy. */
  lemma RepeatedAlternateLoses(n: NodePaths) returns (ps: seq<Promotion>)
    requires !Distinct(n.alternates)
    ensures CanApplyAll(n, ps) && multiset(Listing(ApplyAll(n, ps))) != multiset(Listing(n))
  {
    var s := n.alternates;
    DistinctIffSingle(s);
    var x :| x in s && multiset(s)[x] != 1;
    var i :| 0 <= i < |s| && s[i] == x;
    ps := [Rebuild(i)];
    PromotionKeepsCopiesIff(n, Rebuild(i));
    assert ps[1..] == [];
    assert ApplyAll(n, ps) == Apply(n, Rebuild(i));
  }

  /** The primary listed among the alternates beside another path: promoting that other path
      puts two copies of the old primary into the list. */
  lemma RepeatedPrimaryRepeats(n: NodePaths, k: nat)
    requires n.primary in n.alternates && k < |n.alternates| && n.alternates[k] != n.primary
    ensures !Distinct(Apply(n, Rebuild(k)).alternates)
  {
    var rest := Without(n.alternates, n.alternates[k]);
    WithoutFacts(n.alternates, n.alternates[k]);
    assert n.primary in rest;
    var j :| 0 <= j < |rest| && rest[j] == n.primary;
    var after := Apply(n, Rebuild(k)).alternates;
    assert after[0] == n.primary && after[j + 1] == n.primary;
  }

  lemma ListingDistinctIff(n: NodePaths)
    ensures Distinct(Listing(n)) <==> Distinct(n.alternates) && n.primary !in n.alternates
  {
    var s, all := n.alternates, Listing(n);
    assert forall k :: 0 <= k < |s| ==> s[k] == all[k + 1];
    if Distinct(s) && n.primary !in s {
      forall i, j | 0 <= i < j < |all| ensures all[i] != all[j] {
        assert all[j] == s[j - 1];
        assert i > 0 ==> all[i] == s[i - 1];
      }
    }
    if Distinct(all) {
      forall k | 0 <= k < |s| ensures s[k] != n.primary {
        assert all[0] == n.primary && all[k + 1] == s[k];
      }
      forall i, j | 0 <= i < j < |s| ensures s[i] != s[j] {
        assert all[i + 1] == s[i] && all[j + 1] == s[j];
      }
    }
  }

  /** The primary is listed once more, beside other paths: one promotion loses it, or a second does. */
  lemma RepeatedPrimaryLoses(n: NodePaths) returns (ps: seq<Promotion>)
    requires n.primary in n.alternates && n.alternates != [n.primary] && Distinct(n.alternates)
    ensures CanApplyAll(n, ps) && multiset(Listing(ApplyAll(n, ps))) != multiset(Listing(n))
  {
    var s := n.alternates;
    assert s[..1] == [s[0]];
    assert s[..1] == s || |s| > 1;
    var k := if s[0] == n.primary then 1 else 0;
    RepeatedPrimaryRepeats(n, k);
    var mid := Apply(n, Rebuild(k));
    if multiset(Listing(mid)) != multiset(Listing(n)) {
      ps := [Rebuild(k)];
      assert ps[1..] == [];
    } else {
      var more := RepeatedAlternateLoses(mid);
      ps := [Rebuild(k)] + more;
      assert ps[1..] == more;
    }
  }

  /** A list of promotions that loses a copy, for any node with a repeated path
      other than the lone twin of `TwinKeepsCopies`. */
  lemma LosingPromotions(n: NodePaths) returns (ps: seq<Promotion>)
    requires !Distinct(Listing(n)) && n.alternates != [n.primary]
    ensures CanApplyAll(n, ps) && multiset(Listing(ApplyAll(n, ps))) != multiset(Listing(n))
  {
    if !Distinct(n.alternates) {
      ps := RepeatedAlternateLoses(n);
    } else {
      ListingDistinctIff(n);
      ps := RepeatedPrimaryLoses(n);
    }
  }

  /** Exactly which nodes keep every copy of every path through every sequence of promotions:
      those whose paths are pairwise distinct, and those with one alternate equal to the primary. */
  lemma CopiesAlwaysKeptIff(n: NodePaths)
    ensures CopiesAlwaysKept(n) <==> Distinct(Listing(n)) || n.alternates == [n.primary]
  {
    if Distinct(Listing(n)) {
      forall ps: seq<Promotion> | CanApplyAll(n, ps)
        ensures multiset(Listing(ApplyAll(n, ps))) == multiset(Listing(n))
      {
        DistinctKeepsCopies(n, ps);
      }
    } else if n.alternates == [n.primary] {
      forall ps: seq<Promotion> | CanApplyAll(n, ps)
        ensures multiset(Listing(ApplyAll(n, ps))) == multiset(Listing(n))
      {
        TwinKeepsCopies(n, ps);
      }
    } else {
      var ps := LosingPromotions(n);
      assert !CopiesAlwaysKept(n);
    }
  }

  lemma ApplyOne(n: NodePaths, p: Promotion)
    requires CanApply(n, p)
    ensures CanApplyAll(n, [p]) && ApplyAll(n, [p]) == Apply(n, p)
  {
    assert [p][1..] == [];
  }

  /** Promotions compose. */
  lemma {:induction false} ApplyAllConcat(n: NodePaths, ps: seq<Promotion>, qs: seq<Promotion>)
    requires CanApplyAll(n, ps) && CanApplyAll(ApplyAll(n, ps), qs)
    ensures CanApplyAll(n, ps + qs) && ApplyAll(n, ps + qs) == ApplyAll(ApplyAll(n, ps), qs)
    decreases |ps|
  {
    if ps == [] {
      assert ps + qs == qs;
    } else {
      assert (ps + qs)[1..] == ps[1..] + qs;
      ApplyAllConcat(Apply(n, ps[0]), ps[1..], qs);
    }
  }
}
