/** Migration revisions as a graph: each revision names its parents (`down_revision`). */
module RevisionGraph {
  import opened Text

  type Rev = string
  type Graph = map<Rev, set<Rev>>

  ghost predicate Closed(g: Graph) {
    forall r, p :: r in g && p in g[r] ==> p in g
  }

  /** `rank` grows from parent to child, so there is no cycle. */
  ghost predicate Ranked(g: Graph, rank: map<Rev, nat>) {
    && (forall r :: r in g ==> r in rank)
    && forall r, p :: r in g && p in g[r] && p in rank ==> rank[p] < rank[r]
  }

  ghost predicate WellFormed(g: Graph) {
    Closed(g) && exists rank :: Ranked(g, rank)
  }

  predicate IsHead(g: Graph, h: Rev) {
    h in g && forall r :: r in g ==> h !in g[r]
  }

  function Heads(g: Graph): set<Rev> {
    set h | h in g && IsHead(g, h)
  }

  /** A descent from child to parent, one `down_revision` at a time. */
  ghost predicate IsDescent(g: Graph, p: seq<Rev>) {
    && |p| > 0
    && (forall i :: 0 <= i < |p| ==> p[i] in g)
    && forall i :: 0 <= i < |p| - 1 ==> p[i + 1] in g[p[i]]
  }

  /** Upgrading to `r` applies `a`. */
  ghost predicate Ancestor(g: Graph, a: Rev, r: Rev) {
    exists p :: IsDescent(g, p) && p[0] == r && p[|p| - 1] == a
  }

  lemma AncestorSelf(g: Graph, r: Rev)
    requires r in g
    ensures Ancestor(g, r, r)
  {
    assert IsDescent(g, [r]);
  }

  lemma AncestorThroughChild(g: Graph, a: Rev, c: Rev, r: Rev)
    requires c in g && a in g && a in g[c] && Ancestor(g, c, r)
    ensures Ancestor(g, a, r)
  {
    var d :| IsDescent(g, d) && d[0] == r && d[|d| - 1] == c;
    assert IsDescent(g, d + [a]);
  }

  /** Descents go down in rank, so only the trivial one returns to its start. */
  lemma {:induction false} DescentLowers(g: Graph, rank: map<Rev, nat>, d: seq<Rev>)
    requires Ranked(g, rank) && IsDescent(g, d)
    ensures |d| == 1 || rank[d[|d| - 1]] < rank[d[0]]
  {
    if |d| > 1 {
      assert d[1] in g[d[0]];
      assert IsDescent(g, d[1..]);
      DescentLowers(g, rank, d[1..]);
    }
  }

  lemma DescentEndsBelow(g: Graph, d: seq<Rev>)
    requires IsDescent(g, d) && |d| > 1
    ensures !IsHead(g, d[|d| - 1])
  {
    var i := |d| - 2;
    assert d[i + 1] in g[d[i]];
  }

  // ----- acyclic means ranked -----

  /** No descent of more than one revision returns to its start. */
  ghost predicate Acyclic(g: Graph) {
    forall d :: IsDescent(g, d) && |d| > 1 ==> d[0] != d[|d| - 1]
  }

  /** Where every revision has a child, descents can be as long as one likes. */
  lemma {:induction false} LongDescent(g: Graph, n: nat) returns (d: seq<Rev>)
    requires g.Keys != {} && Heads(g) == {}
    ensures IsDescent(g, d) && |d| == n + 1
  {
    if n == 0 {
      var r :| r in g;
      d := [r];
    } else {
      var rest := LongDescent(g, n - 1);
      assert rest[0] !in Heads(g);
      var c :| c in g && rest[0] in g[c];
      d := [c] + rest;
    }
  }

  lemma AcyclicHasHead(g: Graph)
    requires Acyclic(g) && g.Keys != {}
    ensures Heads(g) != {}
  {
    if Heads(g) == {} {
      var d := LongDescent(g, |g|);
      assert Elements(d) <= g.Keys;
      if NoDup(d) {
        NoDupCardinality(d);
        SubsetCardinality(Elements(d), g.Keys);
      } else {
        var i, j :| 0 <= i < j < |d| && d[i] == d[j];
        PartOfDescent(g, d, i, j);
      }
    }
  }

  lemma PartOfDescent(g: Graph, d: seq<Rev>, i: nat, j: nat)
    requires IsDescent(g, d) && i < j < |d|
    ensures var part := d[i..j + 1]; IsDescent(g, part) && |part| > 1 && part[0] == d[i] && part[|part| - 1] == d[j]
  {
    var part := d[i..j + 1];
    forall k | 0 <= k < |part| - 1
      ensures part[k + 1] in g[part[k]]
    {
      assert d[i + k + 1] in g[d[i + k]];
    }
  }

  lemma SubsetCardinality(a: set<Rev>, b: set<Rev>)
    requires a <= b
    ensures |a| <= |b|
  {
    assert b == a + (b - a);
  }

  /** Taking heads off one by one ranks every acyclic graph. */
  lemma {:induction false} RankAcyclic(g: Graph) returns (rank: map<Rev, nat>)
    requires Closed(g) && Acyclic(g)
    ensures Ranked(g, rank)
    decreases |g|
  {
    if g.Keys == {} {
      rank := map[];
    } else {
      AcyclicHasHead(g);
      var h :| h in Heads(g);
      var rest := g - {h};
      assert rest.Keys == g.Keys - {h};
      assert |rest| == |rest.Keys| && |g| == |g.Keys|;
      forall d | IsDescent(rest, d)
        ensures IsDescent(g, d)
      {
        assert forall i :: 0 <= i < |d| - 1 ==> d[i + 1] in rest[d[i]];
      }
      var below := RankAcyclic(rest);
      var top := RankBound(rest, below, rest.Keys);
      rank := below[h := top];
    }
  }

  /** A closed graph can be ranked exactly when it has no cycle. */
  lemma RankedExactly(g: Graph)
    requires Closed(g)
    ensures (exists rank :: Ranked(g, rank)) <==> Acyclic(g)
  {
    if rank :| Ranked(g, rank) {
      forall d | IsDescent(g, d) && |d| > 1
        ensures d[0] != d[|d| - 1]
      {
        DescentLowers(g, rank, d);
      }
    }
    if Acyclic(g) {
      var rank := RankAcyclic(g);
    }
  }

  // ----- what a single head buys -----

  ghost function Above(g: Graph, rank: map<Rev, nat>, r: Rev): set<Rev>
    requires Ranked(g, rank) && r in g
  {
    set x | x in g && rank[x] > rank[r]
  }

  /** Climbing from any revision ends at some head above it. */
  lemma {:induction false} HeadAbove(g: Graph, rank: map<Rev, nat>, r: Rev) returns (h: Rev)
    requires Closed(g) && Ranked(g, rank) && r in g
    ensures h in Heads(g) && Ancestor(g, r, h)
    decreases Above(g, rank, r)
  {
    if IsHead(g, r) {
      AncestorSelf(g, r);
      h := r;
    } else {
      var c :| c in g && r in g[c];
      assert c in Above(g, rank, r) && c !in Above(g, rank, c);
      h := HeadAbove(g, rank, c);
      AncestorThroughChild(g, r, c, h);
    }
  }

  /**
   * In an acyclic graph a revision is the one and only head exactly when every revision is its ancestor,
   * that is when `upgrade head` is unambiguous and applies every migration there is.
   */
  lemma SingleHeadReachesAll(g: Graph, h: Rev)
    requires WellFormed(g) && h in g
    ensures Heads(g) == {h} <==> forall r :: r in g ==> Ancestor(g, r, h)
  {
    var rank :| Ranked(g, rank);
    if Heads(g) == {h} {
      forall r | r in g
        ensures Ancestor(g, r, h)
      {
        var top := HeadAbove(g, rank, r);
      }
    }
    if forall r :: r in g ==> Ancestor(g, r, h) {
      forall x | x in Heads(g)
        ensures x == h
      {
        var d :| IsDescent(g, d) && d[0] == h && d[|d| - 1] == x;
        if |d| > 1 {
          DescentEndsBelow(g, d);
        }
      }
      var top := HeadAbove(g, rank, h);
    }
  }

  // ----- joining the heads -----

  /** `alembic merge heads`: one new revision whose parents are all current heads. */
  function Merge(g: Graph, m: Rev): Graph {
    g[m := Heads(g)]
  }

  lemma MergeWellFormed(g: Graph, m: Rev)
    requires WellFormed(g) && m !in g
    ensures WellFormed(Merge(g, m))
  {
    var rank :| Ranked(g, rank);
    var top := RankBound(g, rank, g.Keys);
    var rank' := rank[m := top];
    assert Ranked(Merge(g, m), rank');
  }

  lemma {:induction false} RankBound(g: Graph, rank: map<Rev, nat>, revs: set<Rev>) returns (top: nat)
    requires revs <= rank.Keys
    ensures forall r :: r in revs ==> rank[r] < top
    decreases revs
  {
    if revs == {} {
      top := 0;
    } else {
      var r :| r in revs;
      var rest := RankBound(g, rank, revs - {r});
      top := rest + rank[r] + 1;
    }
  }

  lemma MergeHasOneHead(g: Graph, m: Rev)
    requires WellFormed(g) && m !in g
    ensures Heads(Merge(g, m)) == {m}
  {
    var g' := Merge(g, m);
    assert IsHead(g', m);
    forall h | h in g
      ensures !IsHead(g', h)
    {
      if IsHead(g, h) {
        assert h in g'[m];
      } else {
        var r :| r in g && h in g[r];
        assert g'[r] == g[r];
      }
    }
  }

  lemma MergeKeepsAncestry(g: Graph, m: Rev, a: Rev, r: Rev)
    requires WellFormed(g) && m !in g && a in g && r in g
    ensures Ancestor(Merge(g, m), a, r) <==> Ancestor(g, a, r)
  {
    var g' := Merge(g, m);
    if Ancestor(g, a, r) {
      var d :| IsDescent(g, d) && d[0] == r && d[|d| - 1] == a;
      assert IsDescent(g', d);
    }
    if Ancestor(g', a, r) {
      var d :| IsDescent(g', d) && d[0] == r && d[|d| - 1] == a;
      DescentStaysOld(g, m, d);
    }
  }

  lemma {:induction false} DescentStaysOld(g: Graph, m: Rev, d: seq<Rev>)
    requires Closed(g) && m !in g && IsDescent(Merge(g, m), d) && d[0] in g
    ensures IsDescent(g, d)
  {
    if |d| > 1 {
      assert d[0 + 1] in Merge(g, m)[d[0]];
      assert IsDescent(Merge(g, m), d[1..]);
      DescentStaysOld(g, m, d[1..]);
      forall i | 0 <= i < |d|
        ensures d[i] in g
        ensures i < |d| - 1 ==> d[i + 1] in g[d[i]]
      {
        if i > 0 {
          assert d[i] == d[1..][i - 1];
          if i < |d| - 1 {
            assert d[1..][i - 1 + 1] in g[d[1..][i - 1]];
          }
        }
      }
    }
  }

  /** Joining the heads keeps the graph acyclic, leaves one head, and keeps every old ancestor relation. */
  lemma MergeJoins(g: Graph, m: Rev)
    requires WellFormed(g) && m !in g
    ensures WellFormed(Merge(g, m)) && Heads(Merge(g, m)) == {m}
    ensures forall r :: r in Merge(g, m) ==> Ancestor(Merge(g, m), r, m)
    ensures forall a, r :: a in g && r in g ==> (Ancestor(Merge(g, m), a, r) <==> Ancestor(g, a, r))
  {
    MergeWellFormed(g, m);
    MergeHasOneHead(g, m);
    SingleHeadReachesAll(Merge(g, m), m);
    forall a, r | a in g && r in g
      ensures Ancestor(Merge(g, m), a, r) <==> Ancestor(g, a, r)
    {
      MergeKeepsAncestry(g, m, a, r);
    }
  }
}
