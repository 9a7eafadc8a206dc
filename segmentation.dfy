/** Segmentation of a quasi-static indentation test into load-hold-unload
    cycles: boolean masks of loading and unloading samples, the rising and
    falling edges of those masks, the heuristics that trim the edge lists,
    the pairing of edges into cycles, the drift window, and the fallback
    segmentation used for continuous stiffness measurement (CSM). */
module Segmentation {
  import opened Numerics
  import opened Definitions
  import opened Stiffness

  // ----- Edges of a mask -----

  /** The mask padded with `false` on both sides, at position i of 0..|m|+1. */
  predicate Padded(m: seq<bool>, i: nat)
  {
    1 <= i <= |m| && m[i - 1]
  }

  /** Position k of 0..|m| is an edge when the padded mask changes between
      k and k+1. */
  predicate IsEdge(m: seq<bool>, k: nat)
  {
    Padded(m, k) != Padded(m, k + 1)
  }

  /** The edges below k, in increasing order. */
  function EdgesBelow(m: seq<bool>, k: nat): seq<int>
    requires k <= |m| + 1
  {
    if k == 0 then []
    else EdgesBelow(m, k - 1) + (if IsEdge(m, k - 1) then [k - 1] else [])
  }

  /** numpy `flatnonzero(padded[1:] != padded[:-1])`: the edges of a mask. */
  function Edges(m: seq<bool>): seq<int>
  {
    EdgesBelow(m, |m| + 1)
  }

  predicate Increasing(s: seq<int>)
  {
    forall i, j :: 0 <= i < j < |s| ==> s[i] < s[j]
  }

  /** `e` lists edges of `m` in increasing order, alternately a first `true`
      of a run (even positions) and one past the last `true` of a run (odd
      positions). */
  predicate EdgesOf(m: seq<bool>, e: seq<int>)
  {
    Increasing(e) &&
    forall i :: 0 <= i < |e| ==>
      0 <= e[i] <= |m| && IsEdge(m, e[i]) && Padded(m, e[i] + 1) == (i % 2 == 0)
  }

  lemma {:induction false} EdgesBelowShape(m: seq<bool>, k: nat)
    requires k <= |m| + 1
    ensures EdgesOf(m, EdgesBelow(m, k))
    ensures forall i :: 0 <= i < |EdgesBelow(m, k)| ==> EdgesBelow(m, k)[i] < k
    ensures |EdgesBelow(m, k)| % 2 == (if Padded(m, k) then 1 else 0)
    ensures forall j :: 0 <= j < k && IsEdge(m, j) ==> j in EdgesBelow(m, k)
  {
    if k > 0 {
      EdgesBelowShape(m, k - 1);
    }
  }

  /** The edges of a mask form an increasing list of even length whose even
      entries are the first `true` of each run and whose odd entries are one
      past the last `true` of the same run; every change of the mask is
      listed. */
  lemma EdgesAlternate(m: seq<bool>)
    ensures EdgesOf(m, Edges(m))
    ensures |Edges(m)| % 2 == 0
    ensures forall i :: 0 <= i < |Edges(m)| && i % 2 == 0 ==>
      var k := Edges(m)[i]; k < |m| && m[k] && (k == 0 || !m[k - 1])
    ensures forall i :: 0 <= i < |Edges(m)| && i % 2 == 1 ==>
      var k := Edges(m)[i]; 0 < k && m[k - 1] && (k == |m| || !m[k])
    ensures forall k :: 0 < k < |m| && m[k - 1] != m[k] ==> k in Edges(m)
  {
    EdgesBelowShape(m, |m| + 1);
    forall k | 0 < k < |m| && m[k - 1] != m[k]
      ensures k in Edges(m)
    {
      assert IsEdge(m, k);
    }
  }

  /** Dropping the leading pair of an edge list keeps its shape. */
  lemma DropFrontPair(m: seq<bool>, e: seq<int>)
    requires EdgesOf(m, e) && |e| >= 2
    ensures EdgesOf(m, e[2..])
  {
    forall i | 0 <= i < |e[2..]|
      ensures e[2..][i] == e[i + 2] && (i % 2 == 0) == ((i + 2) % 2 == 0)
    {
    }
  }

  /** Dropping the trailing pair of an edge list keeps its shape. */
  lemma DropBackPair(m: seq<bool>, e: seq<int>)
    requires EdgesOf(m, e) && |e| >= 2
    ensures EdgesOf(m, e[..|e| - 2])
  {
  }

  // ----- Trimming the edge lists -----

  /** The load and unload edge lists. */
  datatype EdgeLists = EdgeLists(load: seq<int>, unload: seq<int>)

  /** `np.all(u[-4:] > l[-1])`, or `None` when `l[-1]` does not exist. */
  function LastFourFollow(l: seq<int>, u: seq<int>): (r: Option<bool>)
    ensures r.Some? <==> |l| > 0
    ensures r.Some? ==>
      (r.value <==> forall j :: 0 <= j < |u| && |u| - 4 <= j ==> u[j] > l[|l| - 1])
  {
    if |l| == 0 then None
    else Some(forall j :: 0 <= j < |u| && |u| - 4 <= j ==> u[j] > l[|l| - 1])
  }

  /** The first trimming rule: a partial unload, a hold and a full unload
      leave exactly two unload edges more than load edges, all after the
      last load edge; the last two are dropped. `None` is the IndexError of
      an empty load list. */
  function DropDriftPair(l: seq<int>, u: seq<int>): (r: Option<seq<int>>)
  {
    if |u| == |l| + 2 then
      match LastFourFollow(l, u)
      case None => None
      case Some(b) => if b then Some(u[..|u| - 2]) else Some(u)
    else Some(u)
  }

  /** The second trimming rule: while there are fewer unload edges than
      load edges and the second loading starts before the first unloading,
      the leading load pair is dropped. `None` is the IndexError of a load
      list shorter than three or an empty unload list. */
  function DropLeadingLoads(l: seq<int>, u: seq<int>): (r: Option<seq<int>>)
    decreases |l|
  {
    if |u| < |l| then
      if |l| < 3 || |u| == 0 then None
      else if l[2] < u[0] then DropLeadingLoads(l[2..], u)
      else Some(l)
    else Some(l)
  }

  function Trim(l: seq<int>, u: seq<int>): (r: Option<EdgeLists>)
  {
    match DropDriftPair(l, u)
    case None => None
    case Some(u') =>
      match DropLeadingLoads(l, u')
      case None => None
      case Some(l') => Some(EdgeLists(l', u'))
  }

  lemma {:induction false} DropLeadingLoadsShape(m: seq<bool>, l: seq<int>, u: seq<int>)
    requires EdgesOf(m, l)
    requires DropLeadingLoads(l, u).Some?
    ensures EdgesOf(m, DropLeadingLoads(l, u).value)
    ensures exists k :: 0 <= 2 * k <= |l| && DropLeadingLoads(l, u).value == l[2 * k..]
    ensures var l' := DropLeadingLoads(l, u).value; |u| >= |l'| || (|l'| >= 3 && |u| > 0 && u[0] <= l'[2])
    decreases |l|
  {
    if |u| < |l| && l[2] < u[0] {
      DropFrontPair(m, l);
      DropLeadingLoadsShape(m, l[2..], u);
      var k :| 0 <= 2 * k <= |l[2..]| && DropLeadingLoads(l[2..], u).value == l[2..][2 * k..];
      assert l[2..][2 * k..] == l[2 * (k + 1)..];
    } else {
      assert l == l[2 * 0..];
    }
  }

  /** Trimming keeps both lists edge lists of their masks: the load list
      loses leading pairs, the unload list at most its trailing pair, and
      afterwards the loop condition no longer holds. */
  lemma TrimKeepsEdges(ml: seq<bool>, mu: seq<bool>, l: seq<int>, u: seq<int>)
    requires EdgesOf(ml, l) && EdgesOf(mu, u)
    requires Trim(l, u).Some?
    ensures EdgesOf(ml, Trim(l, u).value.load) && EdgesOf(mu, Trim(l, u).value.unload)
    ensures exists k :: 0 <= 2 * k <= |l| && Trim(l, u).value.load == l[2 * k..]
    ensures Trim(l, u).value.unload == u || Trim(l, u).value.unload == u[..|u| - 2]
    ensures var r := Trim(l, u).value;
      |r.unload| >= |r.load| || (|r.load| >= 3 && |r.unload| > 0 && r.unload[0] <= r.load[2])
  {
    var u' := DropDriftPair(l, u).value;
    if u' != u {
      DropBackPair(mu, u);
    }
    DropLeadingLoadsShape(ml, l, u');
  }

  /** Lines up the two trimming rules as the source runs them: one test,
      then a loop over the load list. */
  method TrimEdges(l: seq<int>, u: seq<int>) returns (r: Option<EdgeLists>)
    ensures r == Trim(l, u)
  {
    var unload := u;
    if |u| == |l| + 2 {
      if |l| == 0 {
        return None;
      }
      if forall j :: 0 <= j < |u| && |u| - 4 <= j ==> u[j] > l[|l| - 1] {
        unload := u[..|u| - 2];
      }
    }
    var load := l;
    while |unload| < |load| && (|load| < 3 || |unload| == 0 || load[2] < unload[0])
      invariant DropLeadingLoads(load, unload) == DropLeadingLoads(l, unload)
      decreases |load|
    {
      if |load| < 3 || |unload| == 0 {
        return None;
      }
      load := load[2..];
    }
    return Some(EdgeLists(load, unload));
  }
  // ----- Pairing edges into cycles -----

  /** The number of pairing rounds, `len(l[::2])`. */
  function Rounds(l: seq<int>): nat
  {
    (|l| + 1) / 2
  }

  /** Round i reads l[2i], l[2i+1], u[2i], u[2i+1]; it raises IndexError
      when one of them is missing. */
  predicate RoundReadable(l: seq<int>, u: seq<int>, i: nat)
  {
    2 * i + 1 < |l| && 2 * i + 1 < |u|
  }

  function Quadruple(l: seq<int>, u: seq<int>, i: nat): Cycle
    requires RoundReadable(l, u, i)
  {
    Cycle(l[2 * i], l[2 * i + 1], u[2 * i], u[2 * i + 1])
  }

  /** The chained comparison `loadStart < loadEnd <= unloadStart < unloadEnd`. */
  predicate Ordered(c: Cycle)
  {
    c.Cycle? && c.loadStart < c.loadEnd <= c.unloadStart < c.unloadEnd
  }

  /** A cycle is accepted when ordered and, where `bounded`, when its
      smallest entry is positive and its largest below n. */
  predicate Accepted(c: Cycle, bounded: bool, n: int)
  {
    Ordered(c) && (!bounded || (0 < c.loadStart && c.unloadEnd < n))
  }

  /** The cycle list after the first k rounds of the pairing loop, or
      `None` once a round raised. A rejected quadruple is dropped, but
      leaves an empty entry once a cycle was accepted. */
  function PairUpTo(bounded: bool, n: int, l: seq<int>, u: seq<int>, k: nat): (r: Option<seq<Cycle>>)
    requires k <= Rounds(l)
    ensures r.Some? ==> |r.value| <= k
    ensures r.Some? && |r.value| > 0 ==> r.value[0].Cycle?
    ensures r.Some? ==> forall j :: 0 <= j < |r.value| && r.value[j].Cycle? ==>
      Accepted(r.value[j], bounded, n)
  {
    if k == 0 then Some([])
    else
      match PairUpTo(bounded, n, l, u, k - 1)
      case None => None
      case Some(cs) =>
        if !RoundReadable(l, u, k - 1) then None
        else
          var c := Quadruple(l, u, k - 1);
          if Accepted(c, bounded, n) then Some(cs + [c])
          else if |cs| > 0 then Some(cs + [NoCycle])
          else Some(cs)
  }

  /** The pairing as the source ends it: an exception empties the list. */
  function Pair(bounded: bool, n: int, l: seq<int>, u: seq<int>): (cs: seq<Cycle>)
  {
    match PairUpTo(bounded, n, l, u, Rounds(l))
    case None => []
    case Some(cs) => cs
  }

  lemma {:induction false} PairStaysRaised(bounded: bool, n: int, l: seq<int>, u: seq<int>, j: nat, k: nat)
    requires j <= k <= Rounds(l)
    requires PairUpTo(bounded, n, l, u, j).None?
    ensures PairUpTo(bounded, n, l, u, k).None?
    decreases k - j
  {
    if j < k {
      PairStaysRaised(bounded, n, l, u, j + 1, k);
    }
  }

  /** Pairs the edge lists round by round, emptying the list on the first
      missing index. */
  method PairCycles(bounded: bool, n: int, l: seq<int>, u: seq<int>) returns (cs: seq<Cycle>)
    ensures cs == Pair(bounded, n, l, u)
  {
    cs := [];
    var i := 0;
    while i < Rounds(l)
      invariant i <= Rounds(l)
      invariant PairUpTo(bounded, n, l, u, i) == Some(cs)
    {
      if !RoundReadable(l, u, i) {
        assert PairUpTo(bounded, n, l, u, i + 1).None?;
        PairStaysRaised(bounded, n, l, u, i + 1, Rounds(l));
        return [];
      }
      var c := Quadruple(l, u, i);
      if Accepted(c, bounded, n) {
        cs := cs + [c];
      } else if |cs| > 0 {
        cs := cs + [NoCycle];
      }
      i := i + 1;
    }
  }

  /** Rounds of an increasing load list read distinct quadruples. */
  lemma QuadruplesDistinct(l: seq<int>, u: seq<int>, i: nat, j: nat)
    requires Increasing(l)
    requires RoundReadable(l, u, i) && RoundReadable(l, u, j) && i != j
    ensures Quadruple(l, u, i) != Quadruple(l, u, j)
  {
    assert l[2 * i] != l[2 * j];
  }

  /** With as many unload as load edges, pairing never raises, keeps the
      quadruple of every round that is accepted and no other cycle. */
  lemma {:induction false} PairingKeepsAccepted(bounded: bool, n: int, l: seq<int>, u: seq<int>, k: nat)
    requires Increasing(l)
    requires |l| == |u| && |l| % 2 == 0
    requires k <= Rounds(l)
    ensures PairUpTo(bounded, n, l, u, k).Some?
    ensures forall i :: 0 <= i < k ==>
      (Quadruple(l, u, i) in PairUpTo(bounded, n, l, u, k).value <==> Accepted(Quadruple(l, u, i), bounded, n))
    ensures forall c :: c in PairUpTo(bounded, n, l, u, k).value && c.Cycle? ==>
      exists i :: 0 <= i < k && c == Quadruple(l, u, i)
  {
    if k > 0 {
      PairingKeepsAccepted(bounded, n, l, u, k - 1);
      var cs := PairUpTo(bounded, n, l, u, k - 1).value;
      var last := k - 1;
      assert RoundReadable(l, u, last);
      var q := Quadruple(l, u, last);
      var cs' := PairUpTo(bounded, n, l, u, k).value;
      assert cs' == cs + [q] || cs' == cs + [NoCycle] || cs' == cs;
      assert q in cs' <==> Accepted(q, bounded, n) by {
        if q in cs {
          var i :| 0 <= i < last && q == Quadruple(l, u, i);
          QuadruplesDistinct(l, u, i, last);
        }
      }
      forall i | 0 <= i < last
        ensures Quadruple(l, u, i) in cs' <==> Quadruple(l, u, i) in cs
      {
        QuadruplesDistinct(l, u, i, last);
      }
    }
  }

  /** For edge lists, the two strict comparisons of a round always hold:
      round i is accepted exactly when loading ends no later than unloading
      starts (and lies within bounds where checked). */
  lemma AcceptedOnEdges(ml: seq<bool>, mu: seq<bool>, bounded: bool, n: int,
                        l: seq<int>, u: seq<int>, i: nat)
    requires EdgesOf(ml, l) && EdgesOf(mu, u)
    requires RoundReadable(l, u, i)
    ensures Accepted(Quadruple(l, u, i), bounded, n) <==>
      l[2 * i + 1] <= u[2 * i] && (!bounded || (0 < l[2 * i] && u[2 * i + 1] < n))
  {
    assert l[2 * i] < l[2 * i + 1] && u[2 * i] < u[2 * i + 1];
  }
  // ----- The drift window -----

  /** The drift interval: `[-1, -1]` or a first and last sample. */
  datatype DriftRange = NoDrift | DriftRange(start: int, end: int)

  /** Position of `u[1::2][-1]`, the last odd-position entry. */
  function LastOdd(u: seq<int>): (k: nat)
    requires |u| >= 2
    ensures k < |u| && k % 2 == 1 && |u| <= k + 2
  {
    2 * (|u| / 2) - 1
  }

  /** One past `start`, unless that leaves fewer than two samples before
      the last one. */
  function ClampedDrift(start: int, n: int): (d: DriftRange)
    ensures d.DriftRange? && d.end == n - 1 && d.start <= d.end - 1
    ensures d.start == start || d.start == n - 2
    ensures start + 1 <= n - 1 ==> d.start == start
  {
    if start + 1 > n - 1 then DriftRange(n - 2, n - 1) else DriftRange(start, n - 1)
  }

  /** The drift window of the newest and the split package: from one past
      the end of the last unloading to the last of n samples, or `[-1, -1]`
      when the unload list holds no end edge. */
  function DriftAfterUnload(u: seq<int>, n: int): (d: DriftRange)
  {
    if |u| < 2 then DriftRange(-1, -1) else ClampedDrift(u[LastOdd(u)] + 1, n)
  }

  /** The drift window starts after every unload edge unless it had to be
      moved back to leave two samples, and is `[-1, -1]` exactly when there
      is no unload end. */
  lemma DriftFollowsUnloading(u: seq<int>, n: int)
    requires Increasing(u) && |u| % 2 == 0
    ensures DriftAfterUnload(u, n) == DriftRange(-1, -1) <==> |u| == 0
    ensures |u| > 0 ==> DriftAfterUnload(u, n).end == n - 1
    ensures |u| > 0 ==> DriftAfterUnload(u, n).start <= DriftAfterUnload(u, n).end - 1
    ensures |u| > 0 && u[|u| - 1] + 2 <= n - 1 ==>
      forall i :: 0 <= i < |u| ==> u[i] < DriftAfterUnload(u, n).start
  {
  }

  /** The drift window of the monolithic versions, read through the loop
      variable of the pairing loop: `None` when the loop never ran. */
  function DriftAfterRounds(l: seq<int>, u: seq<int>, n: int): (d: Option<DriftRange>)
    requires Rounds(l) > 0 ==> RoundReadable(l, u, Rounds(l) - 1)
    ensures d.Some? <==> Rounds(l) > 0
    ensures d.Some? ==> d.value.DriftRange? && d.value.end == n - 1 && d.value.start <= d.value.end - 1
  {
    if Rounds(l) == 0 then None else Some(ClampedDrift(u[2 * (Rounds(l) - 1) + 1] + 1, n))
  }
  // ----- The monolithic versions: three trimming loops, every quadruple kept -----

  /** While unload edges outnumber load edges and unloading starts before
      loading, drop the leading unload pair. `None` is the IndexError of an
      empty load list. */
  function DropLeadingUnloads(l: seq<int>, u: seq<int>): (r: Option<seq<int>>)
    decreases |u|
  {
    if |l| < |u| then
      if |l| == 0 then None
      else if u[0] < l[0] then DropLeadingUnloads(l, u[2..])
      else Some(u)
    else Some(u)
  }

  /** While unload edges outnumber load edges and the third-last unload
      edge follows the last load edge, drop the trailing unload pair. */
  function DropTrailingUnloads(l: seq<int>, u: seq<int>): (r: Option<seq<int>>)
    decreases |u|
  {
    if |l| < |u| then
      if |u| < 3 || |l| == 0 then None
      else if u[|u| - 3] > l[|l| - 1] then DropTrailingUnloads(l, u[..|u| - 2])
      else Some(u)
    else Some(u)
  }

  /** While load edges outnumber unload edges and the second loading ends
      before the first unloading does, drop the leading load pair. */
  function DropLeadingLoadPairs(l: seq<int>, u: seq<int>): (r: Option<seq<int>>)
    decreases |l|
  {
    if |u| < |l| then
      if |l| < 4 || |u| < 2 then None
      else if l[3] < u[1] then DropLeadingLoadPairs(l[2..], u)
      else Some(l)
    else Some(l)
  }

  function ThreeTrims(l: seq<int>, u: seq<int>): (r: Option<EdgeLists>)
  {
    match DropLeadingUnloads(l, u)
    case None => None
    case Some(u1) =>
      match DropTrailingUnloads(l, u1)
      case None => None
      case Some(u2) =>
        match DropLeadingLoadPairs(l, u2)
        case None => None
        case Some(l') => Some(EdgeLists(l', u2))
  }

  lemma {:induction false} DropLeadingUnloadsShape(m: seq<bool>, l: seq<int>, u: seq<int>)
    requires EdgesOf(m, u)
    requires DropLeadingUnloads(l, u).Some?
    ensures EdgesOf(m, DropLeadingUnloads(l, u).value)
    ensures var u' := DropLeadingUnloads(l, u).value; |u'| <= |l| || l[0] <= u'[0]
    decreases |u|
  {
    if |l| < |u| && u[0] < l[0] {
      DropFrontPair(m, u);
      DropLeadingUnloadsShape(m, l, u[2..]);
    }
  }

  lemma {:induction false} DropTrailingUnloadsShape(m: seq<bool>, l: seq<int>, u: seq<int>)
    requires EdgesOf(m, u)
    requires DropTrailingUnloads(l, u).Some?
    ensures EdgesOf(m, DropTrailingUnloads(l, u).value)
    ensures var u' := DropTrailingUnloads(l, u).value; |u'| <= |l| || (|u'| >= 3 && |l| > 0 && u'[|u'| - 3] <= l[|l| - 1])
    decreases |u|
  {
    if |l| < |u| && u[|u| - 3] > l[|l| - 1] {
      DropBackPair(m, u);
      DropTrailingUnloadsShape(m, l, u[..|u| - 2]);
    }
  }

  lemma {:induction false} DropLeadingLoadPairsShape(m: seq<bool>, l: seq<int>, u: seq<int>)
    requires EdgesOf(m, l)
    requires DropLeadingLoadPairs(l, u).Some?
    ensures EdgesOf(m, DropLeadingLoadPairs(l, u).value)
    ensures var l' := DropLeadingLoadPairs(l, u).value; |l'| <= |u| || (|l'| >= 4 && |u| >= 2 && u[1] <= l'[3])
    decreases |l|
  {
    if |u| < |l| && l[3] < u[1] {
      DropFrontPair(m, l);
      DropLeadingLoadPairsShape(m, l[2..], u);
    }
  }

  /** The three trimming loops keep both lists edge lists of their masks,
      and each loop stops only once its condition fails. */
  lemma ThreeTrimsKeepEdges(ml: seq<bool>, mu: seq<bool>, l: seq<int>, u: seq<int>)
    requires EdgesOf(ml, l) && EdgesOf(mu, u)
    requires ThreeTrims(l, u).Some?
    ensures EdgesOf(ml, ThreeTrims(l, u).value.load) && EdgesOf(mu, ThreeTrims(l, u).value.unload)
    ensures var r := ThreeTrims(l, u).value;
      |r.load| <= |r.unload| || (|r.load| >= 4 && |r.unload| >= 2 && r.unload[1] <= r.load[3])
  {
    var u1 := DropLeadingUnloads(l, u).value;
    DropLeadingUnloadsShape(mu, l, u);
    DropTrailingUnloadsShape(mu, l, u1);
    DropLeadingLoadPairsShape(ml, l, DropTrailingUnloads(l, u1).value);
  }

  /** The three trimming loops of the monolithic versions. */
  method TrimEdgesThrice(l: seq<int>, u: seq<int>) returns (r: Option<EdgeLists>)
    ensures r == ThreeTrims(l, u)
  {
    var unload := u;
    while |l| < |unload| && (|l| == 0 || unload[0] < l[0])
      invariant DropLeadingUnloads(l, unload) == DropLeadingUnloads(l, u)
      decreases |unload|
    {
      if |l| == 0 {
        return None;
      }
      unload := unload[2..];
    }
    var u1 := unload;
    while |l| < |unload| && (|unload| < 3 || |l| == 0 || unload[|unload| - 3] > l[|l| - 1])
      invariant DropLeadingUnloads(l, u) == Some(u1)
      invariant DropTrailingUnloads(l, unload) == DropTrailingUnloads(l, u1)
      decreases |unload|
    {
      if |unload| < 3 || |l| == 0 {
        return None;
      }
      unload := unload[..|unload| - 2];
    }
    var load := l;
    while |unload| < |load| && (|load| < 4 || |unload| < 2 || load[3] < unload[1])
      invariant DropLeadingUnloads(l, u) == Some(u1)
      invariant DropTrailingUnloads(l, u1) == Some(unload)
      invariant DropLeadingLoadPairs(load, unload) == DropLeadingLoadPairs(l, unload)
      decreases |load|
    {
      if |load| < 4 || |unload| < 2 {
        return None;
      }
      load := load[2..];
    }
    return Some(EdgeLists(load, unload));
  }

  /** The cycle list of the monolithic versions after k rounds: every
      quadruple is stored, in order or not; `None` is an uncaught
      IndexError. */
  function StoreUpTo(l: seq<int>, u: seq<int>, k: nat): (r: Option<seq<Cycle>>)
    requires k <= Rounds(l)
    ensures r.Some? <==> forall i :: 0 <= i < k ==> RoundReadable(l, u, i)
    ensures r.Some? ==> |r.value| == k && forall i :: 0 <= i < k ==> r.value[i] == Quadruple(l, u, i)
  {
    if k == 0 then Some([])
    else
      match StoreUpTo(l, u, k - 1)
      case None => None
      case Some(cs) =>
        if RoundReadable(l, u, k - 1) then Some(cs + [Quadruple(l, u, k - 1)]) else None
  }

  /** Stores the quadruple of every round; out-of-order ones are only
      reported. */
  method StoreCycles(l: seq<int>, u: seq<int>) returns (r: Option<seq<Cycle>>)
    ensures r == StoreUpTo(l, u, Rounds(l))
  {
    var cs := [];
    var i := 0;
    while i < Rounds(l)
      invariant i <= Rounds(l)
      invariant StoreUpTo(l, u, i) == Some(cs)
    {
      if !RoundReadable(l, u, i) {
        return None;
      }
      cs := cs + [Quadruple(l, u, i)];
      i := i + 1;
    }
    return Some(cs);
  }
  /** The cycle list the storing loop leaves behind after k rounds: the
      quadruples of the rounds before the first one that raised. When no
      round raised it is the list `StoreUpTo` returns. */
  function StorePrefix(l: seq<int>, u: seq<int>, k: nat): (cs: seq<Cycle>)
    requires k <= Rounds(l)
    ensures |cs| <= k
    ensures forall i :: 0 <= i < |cs| ==> RoundReadable(l, u, i) && cs[i] == Quadruple(l, u, i)
    ensures |cs| < k ==> !RoundReadable(l, u, |cs|)
    ensures StoreUpTo(l, u, k).Some? <==> |cs| == k
    ensures StoreUpTo(l, u, k).Some? ==> cs == StoreUpTo(l, u, k).value
  {
    if k == 0 then []
    else
      var cs := StorePrefix(l, u, k - 1);
      if |cs| == k - 1 && RoundReadable(l, u, k - 1) then cs + [Quadruple(l, u, k - 1)] else cs
  }

  // ----- The timestamp filter -----

  /** `np.diff(t)`: the time increments. */
  function Increments(t: seq<real>): (d: seq<real>)
    requires |t| > 0
    ensures |d| == |t| - 1
  {
    seq(|t| - 1, k requires 0 <= k < |t| - 1 => t[k + 1] - t[k])
  }

  /** Sample k+1 is kept unless its time increment is below a thousandth of
      `q80`, the 80th percentile of the increments. */
  function TimeKeep(t: seq<real>, q80: real): (keep: seq<bool>)
    requires |t| > 0
    ensures |keep| == |t| - 1
  {
    seq(|t| - 1, k requires 0 <= k < |t| - 1 => !(Increments(t)[k] < q80 / 1000.0))
  }

  /** `x[1:][keep]`: one signal after the filter. */
  function Thin<T>(x: seq<T>, keep: seq<bool>): (r: seq<T>)
    requires |x| == |keep| + 1
    ensures |r| == Count(keep)
  {
    Select(x[1..], keep)
  }

  /** The filter drops sample 0 and every sample that follows its
      predecessor too closely, and it keeps time, force, depth and the
      validity flags aligned: entry i of every filtered signal comes from
      the same original sample. */
  lemma TimestampFilterAligned<T>(t: seq<real>, x: seq<T>, q80: real, i: nat)
    requires |t| == |x| > 0
    requires i < Count(TimeKeep(t, q80))
    ensures var keep := TimeKeep(t, q80);
      var k := SelectedIndex(keep, i) + 1;
      1 <= k < |t| && Thin(x, keep)[i] == x[k] && Thin(t, keep)[i] == t[k]
      && q80 / 1000.0 <= t[k] - t[k - 1]
  {
    var keep := TimeKeep(t, q80);
    SelectAt(x[1..], keep, i);
    SelectAt(t[1..], keep, i);
    var j := SelectedIndex(keep, i);
    assert keep[j] && Increments(t)[j] == t[j + 1] - t[j];
  }

  // ----- Classifying samples by the force rate -----

  /** The load and unload masks. */
  datatype Masks = Masks(load: seq<bool>, unload: seq<bool>)

  /** `rate / max(rate) > thr`. A zero maximum turns every positive rate
      into +inf, every negative one into -inf and zero into NaN. */
  predicate RisesAbove(r: real, mx: real, thr: real)
  {
    if mx != 0.0 then r / mx > thr else r > 0.0
  }

  /** `rate / max(rate) < -thr`, with the same reading of a zero maximum. */
  predicate FallsBelow(r: real, mx: real, thr: real)
  {
    if mx != 0.0 then r / mx < -thr else r < 0.0
  }

  /** The masks of the newest package (`floor` is the force floor
      `forceNoise`) and of the split package (`floor` is `None`). */
  function RateMasks(rate: seq<real>, pf: seq<real>, thr: real, floor: Option<real>): (r: Masks)
    requires |rate| == |pf| > 0
    ensures |r.load| == |r.unload| == |rate|
  {
    var mx := Max(rate);
    Masks(seq(|rate|, k requires 0 <= k < |rate| =>
            RisesAbove(rate[k], mx, thr) && (floor.None? || pf[k] > floor.value)),
          seq(|rate|, k requires 0 <= k < |rate| =>
            FallsBelow(rate[k], mx, thr) && (floor.None? || pf[k] > floor.value)))
  }

  /** With a non-negative threshold no sample is both loading and
      unloading. */
  lemma RateMasksDisjoint(rate: seq<real>, pf: seq<real>, thr: real, floor: Option<real>)
    requires |rate| == |pf| > 0 && 0.0 <= thr
    ensures forall k :: 0 <= k < |rate| ==>
      !(RateMasks(rate, pf, thr, floor).load[k] && RateMasks(rate, pf, thr, floor).unload[k])
  {
  }

  // ----- Histogram thresholds of the monolithic versions -----

  function AbsAll(s: seq<real>): (r: seq<real>)
    ensures |r| == |s| && forall k :: 0 <= k < |s| ==> r[k] == Abs(s[k])
  {
    seq(|s|, k requires 0 <= k < |s| => Abs(s[k]))
  }

  /** The bin whose centre is nearest zero among the bins counting more
      than `minCount` samples, or the fullest bin when no bin does. */
  function ZeroBin(hist: seq<real>, centers: seq<real>, minCount: real): (k: nat)
    requires |hist| == |centers| > 0
    ensures k < |hist|
    ensures (exists j :: 0 <= j < |hist| && hist[j] > minCount) ==>
      hist[k] > minCount &&
      forall j :: 0 <= j < |hist| && hist[j] > minCount ==> Abs(centers[k]) <= Abs(centers[j])
    ensures (forall j :: 0 <= j < |hist| ==> hist[j] <= minCount) ==> k == ArgMax(hist)
  {
    var peaks := seq(|hist|, j requires 0 <= j < |hist| => hist[j] > minCount);
    if Count(peaks) > 0 then
      ArgMinOver(AbsAll(centers), peaks)
    else
      CountZero(peaks);
      assert forall j :: 0 <= j < |hist| ==> hist[j] <= minCount by {
        forall j | 0 <= j < |hist| ensures hist[j] <= minCount {
          assert !peaks[j];
        }
      }
      ArgMax(hist)
  }

  /** A nearly empty bin (fewer than 0.3 counts) below `zeroValue`. */
  predicate SparseBelow(hist: seq<real>, centers: seq<real>, zeroValue: real, j: int)
    requires |hist| == |centers|
  {
    0 <= j < |hist| && hist[j] < 0.3 && centers[j] < zeroValue
  }

  /** The width of the zero-rate band: the distance from `zeroValue` down to
      the nearest nearly empty bin below it; `None` (the exception that sends
      the monolithic version to its CSM segmentation) when there is none. */
  function ZeroDelta(hist: seq<real>, centers: seq<real>, zeroValue: real): (d: Option<real>)
    requires |hist| == |centers|
    ensures d.Some? <==> exists j :: SparseBelow(hist, centers, zeroValue, j)
    ensures d.Some? ==> 0.0 < d.value
    ensures d.Some? ==> exists j :: SparseBelow(hist, centers, zeroValue, j) && centers[j] == zeroValue - d.value
    ensures d.Some? ==> forall j :: SparseBelow(hist, centers, zeroValue, j) ==> d.value <= zeroValue - centers[j]
  {
    var sparse := seq(|hist|, j requires 0 <= j < |hist| => SparseBelow(hist, centers, zeroValue, j));
    if Count(sparse) == 0 then
      CountZero(sparse);
      assert forall j :: 0 <= j < |hist| ==> sparse[j] == SparseBelow(hist, centers, zeroValue, j);
      None
    else
      var gaps := seq(|hist|, j requires 0 <= j < |hist| => Abs(zeroValue - centers[j]));
      var k := ArgMinOver(gaps, sparse);
      assert SparseBelow(hist, centers, zeroValue, k);
      assert forall j :: SparseBelow(hist, centers, zeroValue, j) ==> sparse[j] && gaps[j] == zeroValue - centers[j];
      Some(Abs(centers[k] - zeroValue))
  }

  /** The masks of the monolithic versions: loading above the band
      `zeroValue ± zeroDelta`, unloading below it. */
  function BandMasks(rate: seq<real>, zeroValue: real, zeroDelta: real): (r: Masks)
    ensures |r.load| == |r.unload| == |rate|
  {
    Masks(seq(|rate|, k requires 0 <= k < |rate| => rate[k] > zeroValue + zeroDelta),
          seq(|rate|, k requires 0 <= k < |rate| => rate[k] < zeroValue - zeroDelta))
  }

  /** With the band found by `ZeroDelta`, no sample is both loading and
      unloading, and every rate within the band is neither. */
  lemma BandMasksSeparate(rate: seq<real>, hist: seq<real>, centers: seq<real>, zeroValue: real, scale: real)
    requires |hist| == |centers| && ZeroDelta(hist, centers, zeroValue).Some? && 1.0 <= scale
    ensures var d := scale * ZeroDelta(hist, centers, zeroValue).value;
      forall k :: 0 <= k < |rate| ==>
        !(BandMasks(rate, zeroValue, d).load[k] && BandMasks(rate, zeroValue, d).unload[k]) &&
        (Abs(rate[k] - zeroValue) <= d ==> !BandMasks(rate, zeroValue, d).load[k] && !BandMasks(rate, zeroValue, d).unload[k])
  {
    var d0 := ZeroDelta(hist, centers, zeroValue).value;
    assert 0.0 < d0 <= scale * d0;
  }

  /** `p[1:] - p[:-1]`. */
  function Differences(p: seq<real>): (r: seq<real>)
    ensures |r| == if |p| == 0 then 0 else |p| - 1
    ensures forall k :: 0 <= k < |r| ==> p[k] + r[k] == p[k + 1]
  {
    if |p| == 0 then [] else seq(|p| - 1, k requires 0 <= k < |p| - 1 => p[k + 1] - p[k])
  }

  // ----- Removing small fluctuations -----

  /** Morphological closing followed by opening with a window of the given
      size; the result has the length of its input. */
  type Morphology = (seq<bool>, int) -> seq<bool>

  /** The cleaning step of the newest package as written: the cleaned masks
      exist only when both masks exceed 100 samples, and reading them
      otherwise raises (`None`). */
  function CleanAsWritten(m: Masks, size: int, morph: Morphology): (r: Option<Masks>)
  {
    if |m.load| > 100 && |m.unload| > 100 then
      var tried := Masks(morph(m.load, size), morph(m.unload, size));
      if Any(tried.load) && Any(tried.unload) then Some(tried) else Some(m)
    else None
  }

  /** The cleaning step as intended: the cleaned masks replace the masks
      only when both were computed and both still hold a `true`. */
  function Clean(m: Masks, size: int, morph: Morphology): (r: Masks)
    ensures r == m || (Any(r.load) && Any(r.unload))
    ensures (|m.load| <= 100 || |m.unload| <= 100) ==> r == m
    ensures Any(m.load) && Any(m.unload) ==> Any(r.load) && Any(r.unload)
  {
    if |m.load| > 100 && |m.unload| > 100 then
      var tried := Masks(morph(m.load, size), morph(m.unload, size));
      if Any(tried.load) && Any(tried.unload) then tried else m
    else m
  }

  /** The short-test defect: with 100 samples or fewer the step as written
      raises, where the intended step keeps the masks; otherwise both agree. */
  lemma CleanShortTestRaises(m: Masks, size: int, morph: Morphology)
    ensures CleanAsWritten(m, size, morph).None? <==> |m.load| <= 100 || |m.unload| <= 100
    ensures CleanAsWritten(m, size, morph).Some? ==> CleanAsWritten(m, size, morph).value == Clean(m, size, morph)
  {
  }

  /** A concrete short test: 50 samples, and the step as written raises. */
  lemma CleanShortTestExample(morph: Morphology)
    ensures var m := Masks(seq(50, _ => true), seq(50, _ => false));
      CleanAsWritten(m, 5, morph).None? && Clean(m, 5, morph) == m
  {
  }

  /** The cleaning of the split package and the monolithic versions: the
      cleaned masks are adopted whenever both exceed 100 samples. */
  function CleanAlways(m: Masks, size: int, morph: Morphology): (r: Masks)
    ensures (|m.load| <= 100 || |m.unload| <= 100) ==> r == m
  {
    if |m.load| > 100 && |m.unload| > 100 then Masks(morph(m.load, size), morph(m.unload, size)) else m
  }
  // ----- The CSM segmentation -----

  /** The five indices of a CSM segmentation, its histogram failure, or an
      uncaught exception. */
  datatype CsmOutcome =
    | CsmRaised
    | HistogramFailed
    | Points(surface: int, load: int, hold: int, driftStart: int, driftEnd: int)

  /** `x < pDrift / level`; dividing a numpy float by zero gives +inf,
      -inf or NaN. */
  predicate BelowQuotient(x: real, pDrift: real, level: real)
  {
    if level != 0.0 then x < pDrift / level else 0.0 < pDrift
  }

  /** Samples of `p` above the fraction `level` of the peak force. */
  function NearPeak(p: seq<real>, level: real): (m: seq<bool>)
    requires |p| > 0
    ensures |m| == |p|
  {
    seq(|p|, j requires 0 <= j < |p| => p[j] - Max(p) * level > 0.0)
  }

  /** Samples from `hold` on whose force lies in the band around the drift
      force. */
  function NearDrift(p: seq<real>, hold: int, pDrift: real, level: real): (m: seq<bool>)
    ensures |m| == |p|
  {
    seq(|p|, j requires 0 <= j < |p| => hold <= j && p[j] > pDrift * level && BelowQuotient(p[j], pDrift, level))
  }

  /** The chain surface < load < hold < driftStart < driftEnd < n. */
  predicate Chained(r: CsmOutcome, n: int)
  {
    r.Points? && r.surface < r.load < r.hold < r.driftStart < r.driftEnd < n
  }

  /** The CSM segmentation as the split package and the monolithic versions
      compute it. `drift` is the histogram of the force from the hold on:
      the upper edge of its fullest bin, or `None` when numpy raises;
      `caught` says whether that exception is caught. */
  function CsmFound(p: seq<real>, h: seq<real>, level: real, drift: seq<real> -> Option<real>, caught: bool): (r: CsmOutcome)
    requires |p| == |h|
    ensures r.Points? ==> 0 <= r.surface < |h| && h[r.surface] >= 0.0
    ensures r.Points? ==> forall j :: 0 <= j < r.surface ==> h[j] < 0.0
    ensures r.Points? ==> r.driftStart < r.driftEnd <= |p| - 1
    ensures r.Points? && r.load < |p| - 1 ==> r.load < r.hold < |p|
    ensures r.Points? && r.load >= |p| - 1 ==>
      (r.hold, r.driftStart, r.driftEnd) == (|p| - 3, |p| - 2, |p| - 1)
    ensures r.HistogramFailed? ==> caught
  {
    var n := |p|;
    match SurfaceIndex(h)
    case None => CsmRaised
    case Some(surface) =>
      var top := NearPeak(p, level);
      if Count(top) == 0 then CsmRaised
      else
        var load := FirstTrue(top);
        if load < n - 1 then
          var last := LastTrue(top);
          var hold := if last == load then load + 1 else last;
          match drift(p[hold..])
          case None => if caught then HistogramFailed else CsmRaised
          case Some(pDrift) =>
            var ends := DriftEnds(p, hold, pDrift, level);
            Points(surface, load, hold, ends.0, ends.1)
        else Points(surface, load, n - 3, n - 2, n - 1)
  }

  /** The first sample at or below the surface, `h >= 0`; `None` is the
      exception numpy raises on an empty selection. */
  function SurfaceIndex(h: seq<real>): (r: Option<nat>)
    ensures r.Some? ==> r.value < |h| && h[r.value] >= 0.0
    ensures r.Some? ==> forall j :: 0 <= j < r.value ==> h[j] < 0.0
    ensures r.None? ==> forall j :: 0 <= j < |h| ==> h[j] < 0.0
  {
    var wet := seq(|h|, j requires 0 <= j < |h| => h[j] >= 0.0);
    assert forall j :: 0 <= j < |h| ==> (wet[j] <==> h[j] >= 0.0);
    if Count(wet) == 0 then
      CountZero(wet);
      None
    else
      Some(FirstTrue(wet))
  }

  /** The drift segment: the first and last sample of the drift band when
      more than three samples lie in it, else the last two samples. */
  function DriftEnds(p: seq<real>, hold: int, pDrift: real, level: real): (d: (int, int))
    ensures d.0 < d.1 <= |p| - 1
    ensures Count(NearDrift(p, hold, pDrift, level)) > 3 ==>
      0 <= d.0 && NearDrift(p, hold, pDrift, level)[d.0] && NearDrift(p, hold, pDrift, level)[d.1]
  {
    var close := NearDrift(p, hold, pDrift, level);
    if Count(close) > 3 then
      var first := FirstTrue(close);
      var final := LastTrue(close);
      assert first != final by {
        if first == final {
          OnlyOneTrue(close, first);
        }
      }
      (first, final)
    else (|p| - 2, |p| - 1)
  }

  /** A mask whose first and last `true` coincide counts one. */
  lemma {:induction false} OnlyOneTrue(m: seq<bool>, k: nat)
    requires k < |m| && m[k]
    requires forall j :: 0 <= j < |m| && j != k ==> !m[j]
    ensures Count(m) == 1
  {
    var n := |m| - 1;
    assert forall j :: 0 <= j < n ==> m[..n][j] == m[j];
    if k < n {
      OnlyOneTrue(m[..n], k);
    } else {
      CountZeroWhenFalse(m[..n]);
    }
  }

  lemma {:induction false} CountZeroWhenFalse(m: seq<bool>)
    requires forall j :: 0 <= j < |m| ==> !m[j]
    ensures Count(m) == 0
  {
    if m != [] {
      var n := |m| - 1;
      assert forall j :: 0 <= j < n ==> m[..n][j] == m[j];
      CountZeroWhenFalse(m[..n]);
    }
  }

  /** The repair of the newest package: a broken chain is replaced by the
      last four samples. */
  function Repair(r: CsmOutcome, n: int): (r': CsmOutcome)
    requires r.Points?
    ensures r'.Points? && r'.surface == r.surface
    ensures r'.load < r'.hold < r'.driftStart < r'.driftEnd < n
    ensures Chained(r, n) ==> r' == r
    ensures !Chained(r, n) ==> (r'.load, r'.hold, r'.driftStart, r'.driftEnd) == (n - 4, n - 3, n - 2, n - 1)
  {
    if Chained(r, n) then r else Points(r.surface, n - 4, n - 3, n - 2, n - 1)
  }

  /** The CSM segmentation of the newest package: the histogram failure is
      caught, and a broken chain is repaired only when the peak force is
      not reached at the last sample. */
  function CsmNewest(p: seq<real>, h: seq<real>, level: real, drift: seq<real> -> Option<real>): (r: CsmOutcome)
    requires |p| == |h|
  {
    var found := CsmFound(p, h, level, drift, true);
    if found.Points? && found.load < |p| - 1 then Repair(found, |p|) else found
  }

  /** When the peak force is reached before the last sample, the newest
      segmentation always yields load < hold < drift start < drift end
      within the test, either as found or after the repair, and keeps the
      surface index it found. */
  lemma CsmNewestOrdered(p: seq<real>, h: seq<real>, level: real, drift: seq<real> -> Option<real>)
    requires |p| == |h|
    ensures var r := CsmNewest(p, h, level, drift);
      r.Points? && r.load < |p| - 1 ==> r.load < r.hold < r.driftStart < r.driftEnd < |p|
    ensures var r := CsmNewest(p, h, level, drift); var f := CsmFound(p, h, level, drift, true);
      r.Points? <==> f.Points?
    ensures var r := CsmNewest(p, h, level, drift); var f := CsmFound(p, h, level, drift, true);
      r.Points? ==> r.surface == f.surface && (Chained(f, |p|) ==> r == f)
  {
  }
  // ----- From masks to cycles -----

  /** The cycles, the drift window and whether the edge counts matched. */
  datatype Segments = Segments(cycles: seq<Cycle>, drift: DriftRange, matched: bool)

  /** The edge stage ends in cycles, in the CSM fallback of the
      documentation version, or in an uncaught exception. */
  datatype Stage = StageRaised | StageFallback | StageDone(segments: Segments)

  /** From the cleaned masks of n samples to cycles and the drift window,
      per generation: the newest and the split package trim with two rules
      and drop rejected quadruples (only the newest checks bounds); the
      monolithic versions trim with three loops and keep every quadruple;
      the documentation version falls back to the CSM segmentation when
      the edge counts still differ. */
  function EdgeStage(g: Generation, m: Masks, n: int): (r: Stage)
    ensures g != Documentation ==> !r.StageFallback?
  {
    var l := Edges(m.load);
    var u := Edges(m.unload);
    if g == Newest || g == Split then
      match Trim(l, u)
      case None => StageRaised
      case Some(e) =>
        StageDone(Segments(Pair(g == Newest, n, e.load, e.unload), DriftAfterUnload(e.unload, n),
                           |e.load| == |e.unload|))
    else
      match ThreeTrims(l, u)
      case None => StageRaised
      case Some(e) =>
        if g == Documentation && |e.load| != |e.unload| then StageFallback
        else
          match StoreUpTo(e.load, e.unload, Rounds(e.load))
          case None => StageRaised
          case Some(cs) =>
            match DriftAfterRounds(e.load, e.unload, n)
            case None => StageRaised
            case Some(d) => StageDone(Segments(cs, d, |e.load| == |e.unload|))
  }

  /** The edge stage as the source runs it: the trimming loops, then the
      pairing or storing loop. */
  method FindStage(g: Generation, m: Masks, n: int) returns (r: Stage)
    ensures r == EdgeStage(g, m, n)
  {
    var l, u := Edges(m.load), Edges(m.unload);
    if g == Newest || g == Split {
      var trimmed := TrimEdges(l, u);
      if trimmed.None? {
        return StageRaised;
      }
      var e := trimmed.value;
      var cs := PairCycles(g == Newest, n, e.load, e.unload);
      return StageDone(Segments(cs, DriftAfterUnload(e.unload, n), |e.load| == |e.unload|));
    }
    var trimmed := TrimEdgesThrice(l, u);
    if trimmed.None? {
      return StageRaised;
    }
    var e := trimmed.value;
    if g == Documentation && |e.load| != |e.unload| {
      return StageFallback;
    }
    var stored := StoreCycles(e.load, e.unload);
    if stored.None? {
      return StageRaised;
    }
    var drift := DriftAfterRounds(e.load, e.unload, n);
    if drift.None? {
      return StageRaised;
    }
    return StageDone(Segments(stored.value, drift.value, |e.load| == |e.unload|));
  }

  /** Every cycle the pairing keeps is accepted, and the list starts with
      a cycle. */
  lemma PairSound(bounded: bool, n: int, l: seq<int>, u: seq<int>)
    ensures var cs := Pair(bounded, n, l, u);
      (forall j :: 0 <= j < |cs| && cs[j].Cycle? ==> Accepted(cs[j], bounded, n)) &&
      (|cs| > 0 ==> cs[0].Cycle?)
  {
  }

  /** What the newest package guarantees about its cycles: every kept
      cycle satisfies loadStart < loadEnd <= unloadStart < unloadEnd with
      all indices strictly between 0 and n, and the list starts with a
      cycle. The drift window ends at the last sample and is at least two
      samples long, or is [-1, -1] when no unload edge is left. */
  lemma NewestCyclesOrdered(m: Masks, n: int)
    ensures var r := EdgeStage(Newest, m, n);
      r.StageDone? ==>
        var cs := r.segments.cycles;
        (forall j :: 0 <= j < |cs| && cs[j].Cycle? ==>
           cs[j].loadStart < cs[j].loadEnd <= cs[j].unloadStart < cs[j].unloadEnd &&
           0 < cs[j].loadStart && cs[j].unloadEnd < n) &&
        (|cs| > 0 ==> cs[0].Cycle?) &&
        (r.segments.drift == DriftRange(-1, -1) ||
         (r.segments.drift.end == n - 1 && r.segments.drift.start <= n - 2))
  {
    var l := Edges(m.load);
    var u := Edges(m.unload);
    if Trim(l, u).Some? {
      var e := Trim(l, u).value;
      PairSound(true, n, e.load, e.unload);
    }
  }

  /** When the edge counts matched, the newest package loses no quadruple
      to an exception: round i is kept exactly when its loading ends no
      later than its unloading starts and it lies within bounds. */
  lemma NewestCyclesComplete(m: Masks, n: int)
    ensures var r := EdgeStage(Newest, m, n);
      r.StageDone? && r.segments.matched ==>
        var e := Trim(Edges(m.load), Edges(m.unload)).value;
        forall i :: 0 <= i < Rounds(e.load) ==>
          RoundReadable(e.load, e.unload, i) &&
          (Quadruple(e.load, e.unload, i) in r.segments.cycles <==>
             e.load[2 * i + 1] <= e.unload[2 * i] && 0 < e.load[2 * i] && e.unload[2 * i + 1] < n)
  {
    var l := Edges(m.load);
    var u := Edges(m.unload);
    if Trim(l, u).Some? && |Trim(l, u).value.load| == |Trim(l, u).value.unload| {
      var e := Trim(l, u).value;
      EdgesAlternate(m.load);
      EdgesAlternate(m.unload);
      TrimKeepsEdges(m.load, m.unload, l, u);
      var k :| 0 <= 2 * k <= |l| && e.load == l[2 * k..];
      assert |e.load| % 2 == 0;
      MatchedPairingComplete(m.load, m.unload, n, e.load, e.unload);
    }
  }

  lemma MatchedPairingComplete(ml: seq<bool>, mu: seq<bool>, n: int, l: seq<int>, u: seq<int>)
    requires EdgesOf(ml, l) && EdgesOf(mu, u)
    requires |l| == |u| && |l| % 2 == 0
    ensures forall i :: 0 <= i < Rounds(l) ==>
      RoundReadable(l, u, i) &&
      (Quadruple(l, u, i) in Pair(true, n, l, u) <==>
         l[2 * i + 1] <= u[2 * i] && 0 < l[2 * i] && u[2 * i + 1] < n)
  {
    PairingKeepsAccepted(true, n, l, u, Rounds(l));
    forall i | 0 <= i < Rounds(l)
      ensures RoundReadable(l, u, i)
      ensures Accepted(Quadruple(l, u, i), true, n) <==>
        l[2 * i + 1] <= u[2 * i] && 0 < l[2 * i] && u[2 * i + 1] < n
    {
      AcceptedOnEdges(ml, mu, true, n, l, u, i);
    }
  }

  // ----- The mask stage of each generation -----

  /** The numpy and scipy routines the segmentation calls: the 80th
      percentile, the force smoothing (median filter of width 5 when the
      flag is set, Gaussian filter otherwise), the gradient of a signal
      over time, closing followed by opening, the histogram of the rates as
      bin counts and bin centres (`None` when numpy raises), the Gaussian
      smoothing of a histogram, and the drift force read from the
      histogram of the hold force (`None` when numpy raises). */
  datatype SignalOps = SignalOps(
    percentile80: seq<real> -> real,
    smooth: (seq<real>, bool) -> seq<real>,
    gradient: (seq<real>, seq<real>) -> seq<real>,
    morph: Morphology,
    histogram: (seq<real>, nat) -> Option<(seq<real>, seq<real>)>,
    smoothHistogram: seq<real> -> seq<real>,
    driftForce: seq<real> -> Option<real>)

  /** The routines keep the length of what they filter, and a histogram
      has as many counts and centres as bins. */
  ghost predicate LawfulOps(o: SignalOps)
  {
    && (forall s, median :: |o.smooth(s, median)| == |s|)
    && (forall f, x :: |o.gradient(f, x)| == |f|)
    && (forall m, size :: |o.morph(m, size)| == |m|)
    && (forall s, bins :: o.histogram(s, bins).Some? ==>
          |o.histogram(s, bins).value.0| == bins && |o.histogram(s, bins).value.1| == bins)
    && (forall s :: |o.smoothHistogram(s)| == |s|)
  }

  /** The masks a generation ends its mask stage with, the CSM fallback of
      the monolith, or an uncaught exception. */
  datatype MaskStage = MasksRaised | MasksFallback | MasksFound(masks: Masks)

  /** The model parameters the newest mask stage reads before it cleans. */
  predicate NewestParameters(model: Dict)
  {
    && "relForceRateNoiseFilter" in model
    && NumberAt(model, "relForceRateNoise").Some?
    && NumberAt(model, "forceNoise").Some?
  }

  /** The mask stage of the newest package on the filtered signals: the
      force is smoothed, its rate normalised by the largest rate, the
      masks classified with the force floor and cleaned with the window
      `maxSizeFluctuations`. A missing parameter raises, and so does
      `np.gradient` on a single sample. */
  function NewestMasks(t: seq<real>, p: seq<real>, model: Dict, o: SignalOps): (r: MaskStage)
    requires |t| == |p| && LawfulOps(o)
    ensures !r.MasksFallback?
    ensures r.MasksFound? ==> |r.masks.load| == |p| && |r.masks.unload| == |p|
  {
    if !NewestParameters(model) || |p| < 2 then MasksRaised
    else
      var pf := o.smooth(p, model["relForceRateNoiseFilter"] == Text("median"));
      var m := RateMasks(o.gradient(pf, t), pf, NumberAt(model, "relForceRateNoise").value,
                         Some(NumberAt(model, "forceNoise").value));
      if |p| <= 100 then MasksFound(m)
      else
        match IntegerAt(model, "maxSizeFluctuations")
        case None => MasksRaised
        case Some(size) => MasksFound(Clean(m, size, o.morph))
  }

  /** The newest mask stage raises exactly when a parameter is missing,
      the test has a single sample, or a long test has no whole window
      size; otherwise its masks are the classified ones or cleaned ones
      that keep a loading and an unloading sample. */
  lemma NewestMasksRaise(t: seq<real>, p: seq<real>, model: Dict, o: SignalOps)
    requires |t| == |p| && LawfulOps(o)
    ensures NewestMasks(t, p, model, o).MasksRaised? <==>
      !NewestParameters(model) || |p| < 2 || (|p| > 100 && IntegerAt(model, "maxSizeFluctuations").None?)
    ensures NewestParameters(model) && |p| >= 2 ==>
      var pf := o.smooth(p, model["relForceRateNoiseFilter"] == Text("median"));
      var m := RateMasks(o.gradient(pf, t), pf, NumberAt(model, "relForceRateNoise").value,
                         Some(NumberAt(model, "forceNoise").value));
      NewestMasks(t, p, model, o).MasksFound? ==>
        NewestMasks(t, p, model, o).masks == m ||
        (Any(NewestMasks(t, p, model, o).masks.load) && Any(NewestMasks(t, p, model, o).masks.unload))
  {
  }

  /** The mask stage of the split package: the normalised rate against
      `±zeroGradDelta` without a force floor, cleaned with a window of 10
      whenever the test is longer than 100 samples. */
  function SplitMasks(t: seq<real>, p: seq<real>, zeroGradDelta: real, median: bool, o: SignalOps): (r: MaskStage)
    requires |t| == |p| && LawfulOps(o)
    ensures !r.MasksFallback?
    ensures r.MasksRaised? <==> |p| < 2
    ensures r.MasksFound? ==> |r.masks.load| == |p| && |r.masks.unload| == |p|
  {
    if |p| < 2 then MasksRaised
    else
      var pf := o.smooth(p, median);
      MasksFound(CleanAlways(RateMasks(o.gradient(pf, t), pf, zeroGradDelta, None), 10, o.morph))
  }

  /** The mask stage of the two monolithic versions. The monolith builds
      a histogram of 200 bins from the force increments near the peak
      force and takes peaks above 5 counts; the documented version uses
      1000 bins over all increments, smooths Hysitron histograms and takes
      peaks above 10 counts. The zero-rate band is widened fourfold for
      Hysitron ISO tests in the monolith. Without a nearly empty bin below
      the zero value the monolith falls back to its CSM segmentation and
      the documented version raises. */
  function HistogramMasks(g: Generation, p: seq<real>, vendor: Vendor, testMethod: Method, o: SignalOps): (r: MaskStage)
    requires g == Monolith || g == Documentation
    requires LawfulOps(o)
    ensures g == Documentation ==> !r.MasksFallback?
    ensures r.MasksFound? ==> |r.masks.load| == |Differences(p)| && |r.masks.unload| == |Differences(p)|
  {
    if g == Monolith && |p| == 0 then MasksRaised
    else
      var rates := if g == Monolith then Differences(Select(p, NearPeak(p, 0.98))) else Differences(p);
      var bins := if g == Monolith then 200 else 1000;
      match o.histogram(rates, bins)
      case None => MasksRaised
      case Some(counted) =>
        var hist := if g == Documentation && vendor == Hysitron then o.smoothHistogram(counted.0) else counted.0;
        var centers := counted.1;
        var zeroValue := centers[ZeroBin(hist, centers, if g == Monolith then 5.0 else 10.0)];
        match ZeroDelta(hist, centers, zeroValue)
        case None => if g == Monolith then MasksFallback else MasksRaised
        case Some(d) =>
          var delta := if g == Monolith && vendor == Hysitron && testMethod == ISO then 4.0 * d else d;
          MasksFound(CleanAlways(BandMasks(Differences(p), zeroValue, delta), 7, o.morph))
  }

  /** On a test short enough to escape cleaning, the histogram masks never
      mark a sample as both loading and unloading, and every increment
      inside the zero-rate band is neither. */
  lemma {:induction false} HistogramMasksSeparate(g: Generation, p: seq<real>, vendor: Vendor, testMethod: Method, o: SignalOps)
    requires g == Monolith || g == Documentation
    requires LawfulOps(o) && |p| <= 101
    ensures var r := HistogramMasks(g, p, vendor, testMethod, o);
      r.MasksFound? ==> forall k :: 0 <= k < |Differences(p)| ==> !(r.masks.load[k] && r.masks.unload[k])
  {
    var r := HistogramMasks(g, p, vendor, testMethod, o);
    if r.MasksFound? {
      var rates := if g == Monolith then Differences(Select(p, NearPeak(p, 0.98))) else Differences(p);
      var bins := if g == Monolith then 200 else 1000;
      var counted := o.histogram(rates, bins).value;
      var hist := if g == Documentation && vendor == Hysitron then o.smoothHistogram(counted.0) else counted.0;
      var centers := counted.1;
      var zeroValue := centers[ZeroBin(hist, centers, if g == Monolith then 5.0 else 10.0)];
      var scale := if g == Monolith && vendor == Hysitron && testMethod == ISO then 4.0 else 1.0;
      BandMasksSeparate(Differences(p), hist, centers, zeroValue, scale);
    }
  }

  // ----- The segmentation of each generation on its masks -----

  /** The newest package on its filtered signals. */
  function NewestStage(t: seq<real>, p: seq<real>, model: Dict, o: SignalOps): Stage
    requires |t| == |p| && LawfulOps(o)
  {
    match NewestMasks(t, p, model, o)
    case MasksFound(m) => EdgeStage(Newest, m, |p|)
    case _ => StageRaised
  }

  /** The split package on its filtered signals. */
  function SplitStage(t: seq<real>, p: seq<real>, zeroGradDelta: real, median: bool, o: SignalOps): Stage
    requires |t| == |p| && LawfulOps(o)
  {
    match SplitMasks(t, p, zeroGradDelta, median, o)
    case MasksFound(m) => EdgeStage(Split, m, |p|)
    case _ => StageRaised
  }

  /** The monolithic versions on the unfiltered force. */
  function HistogramStage(g: Generation, p: seq<real>, vendor: Vendor, testMethod: Method, o: SignalOps): Stage
    requires g == Monolith || g == Documentation
    requires LawfulOps(o)
  {
    match HistogramMasks(g, p, vendor, testMethod, o)
    case MasksFound(m) => EdgeStage(g, m, |p|)
    case MasksFallback => StageFallback
    case MasksRaised => StageRaised
  }

  /** The trimmed edge lists of the monolithic versions when their
      storing loop begins, or `None` when the segmentation raised or fell
      back before it reset the cycle list. */
  function StoringEdges(g: Generation, p: seq<real>, vendor: Vendor, testMethod: Method, o: SignalOps)
    : (r: Option<EdgeLists>)
    requires g == Monolith || g == Documentation
    requires LawfulOps(o)
    ensures r.Some? ==> !HistogramStage(g, p, vendor, testMethod, o).StageFallback?
  {
    match HistogramMasks(g, p, vendor, testMethod, o)
    case MasksFound(m) =>
      (match ThreeTrims(Edges(m.load), Edges(m.unload))
       case None => None
       case Some(e) => if g == Documentation && |e.load| != |e.unload| then None else Some(e))
    case _ => None
  }

  /** What the monolithic versions have stored in `iLHU` when their
      segmentation ends: `None` when storing never began, otherwise the
      rounds stored before the loop ended or raised. */
  function HistogramCycles(g: Generation, p: seq<real>, vendor: Vendor, testMethod: Method, o: SignalOps)
    : (r: Option<seq<Cycle>>)
    requires g == Monolith || g == Documentation
    requires LawfulOps(o)
    ensures var s := HistogramStage(g, p, vendor, testMethod, o);
      (s.StageDone? ==> r == Some(s.segments.cycles)) &&
      (s.StageFallback? ==> r.None?)
  {
    match StoringEdges(g, p, vendor, testMethod, o)
    case None => None
    case Some(e) => Some(StorePrefix(e.load, e.unload, Rounds(e.load)))
  }

  /** A raise after the cycle list was reset leaves either every round
      stored, when there was no round at all and the drift window's loop
      variable is undefined, or the rounds before the first one with a
      missing index. */
  lemma HistogramRaisedPrefix(g: Generation, p: seq<real>, vendor: Vendor, testMethod: Method, o: SignalOps)
    requires g == Monolith || g == Documentation
    requires LawfulOps(o)
    requires HistogramStage(g, p, vendor, testMethod, o).StageRaised?
    requires StoringEdges(g, p, vendor, testMethod, o).Some?
    ensures var e := StoringEdges(g, p, vendor, testMethod, o).value;
      var cs := HistogramCycles(g, p, vendor, testMethod, o).value;
      (Rounds(e.load) == 0 && cs == []) ||
      (|cs| < Rounds(e.load) && !RoundReadable(e.load, e.unload, |cs|) &&
       forall i :: 0 <= i < |cs| ==> cs[i] == Quadruple(e.load, e.unload, i))
  {
  }

  /** The newest segmentation as the source runs it. */
  method FindNewestStage(t: seq<real>, p: seq<real>, model: Dict, o: SignalOps) returns (r: Stage)
    requires |t| == |p| && LawfulOps(o)
    ensures r == NewestStage(t, p, model, o)
  {
    var masks := NewestMasks(t, p, model, o);
    if !masks.MasksFound? {
      return StageRaised;
    }
    r := FindStage(Newest, masks.masks, |p|);
  }

  /** The split segmentation as the source runs it. */
  method FindSplitStage(t: seq<real>, p: seq<real>, zeroGradDelta: real, median: bool, o: SignalOps) returns (r: Stage)
    requires |t| == |p| && LawfulOps(o)
    ensures r == SplitStage(t, p, zeroGradDelta, median, o)
  {
    var masks := SplitMasks(t, p, zeroGradDelta, median, o);
    if !masks.MasksFound? {
      return StageRaised;
    }
    r := FindStage(Split, masks.masks, |p|);
  }

  /** The monolithic segmentation as the source runs it. */
  method FindHistogramStage(g: Generation, p: seq<real>, vendor: Vendor, testMethod: Method, o: SignalOps)
    returns (r: Stage)
    requires g == Monolith || g == Documentation
    requires LawfulOps(o)
    ensures r == HistogramStage(g, p, vendor, testMethod, o)
  {
    var masks := HistogramMasks(g, p, vendor, testMethod, o);
    match masks {
      case MasksRaised => return StageRaised;
      case MasksFallback => return StageFallback;
      case MasksFound(m) => r := FindStage(g, m, |p|);
    }
  }

  /** The guarantees of `NewestCyclesOrdered` for the whole newest
      segmentation. */
  lemma NewestStageOrdered(t: seq<real>, p: seq<real>, model: Dict, o: SignalOps)
    requires |t| == |p| && LawfulOps(o)
    ensures var r := NewestStage(t, p, model, o);
      r.StageDone? ==>
        var cs := r.segments.cycles;
        (forall j :: 0 <= j < |cs| && cs[j].Cycle? ==>
           0 < cs[j].loadStart < cs[j].loadEnd <= cs[j].unloadStart < cs[j].unloadEnd < |p|) &&
        (|cs| > 0 ==> cs[0].Cycle?) &&
        (r.segments.drift == DriftRange(-1, -1) ||
         (r.segments.drift.end == |p| - 1 && r.segments.drift.start <= |p| - 2))
  {
    var m := NewestMasks(t, p, model, o);
    if m.MasksFound? {
      NewestCyclesOrdered(m.masks, |p|);
    }
  }
}
