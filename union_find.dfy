/**
 * The array-backed disjoint-set forest that the node canonicalizer uses:
 * every element starts as its own parent, `Find` compresses the path it walks,
 * and `UnionSet` links the two roots by rank.
 *
 * The abstract view is given on the two arrays as sequences: `Forest` is the
 * invariant (parent links stay in range and strictly raise the rank, so they
 * are acyclic) and `Root` follows parent links to the representative.
 */
module DisjointSet {

  /** Parent links in range, ranks in [0, bound], and each non-root link strictly raises the rank. */
  ghost predicate Forest(p: seq<int>, rk: seq<int>, bound: int) {
    && |p| == |rk|
    && (forall i :: 0 <= i < |p| ==> 0 <= p[i] < |p|)
    && (forall i :: 0 <= i < |rk| ==> 0 <= rk[i] <= bound)
    && (forall i :: 0 <= i < |p| && p[i] != i ==> rk[i] < rk[p[i]])
  }

  /** The representative of `x`: the root reached by following parent links. */
  ghost function Root(p: seq<int>, rk: seq<int>, bound: int, x: int): (r: int)
    requires Forest(p, rk, bound) && 0 <= x < |p|
    ensures 0 <= r < |p| && p[r] == r
    ensures r == x <==> p[x] == x
    ensures r != x ==> rk[x] < rk[r]
    decreases bound - rk[x]
  {
    if p[x] == x then x else Root(p, rk, bound, p[x])
  }

  /** Redirecting `x` straight to its own root keeps the forest and every element's root. */
  lemma {:induction false} CompressKeepsRoots(p: seq<int>, rk: seq<int>, bound: int, x: int, y: int)
    requires Forest(p, rk, bound) && 0 <= x < |p| && 0 <= y < |p|
    ensures Forest(p[x := Root(p, rk, bound, x)], rk, bound)
    ensures Root(p[x := Root(p, rk, bound, x)], rk, bound, y) == Root(p, rk, bound, y)
    decreases bound - rk[y]
  {
    var r := Root(p, rk, bound, x);
    var q := p[x := r];
    assert Forest(q, rk, bound) by {
      forall i | 0 <= i < |q| && q[i] != i ensures rk[i] < rk[q[i]] {
        if i == x { assert r != x; }
      }
    }
    if y == x {
      if r != x {
        assert q[r] == r;
        assert Root(q, rk, bound, r) == r;
      }
    } else if p[y] != y {
      CompressKeepsRoots(p, rk, bound, x, p[y]);
    }
  }

  /** Path compression at `x` keeps the forest and the root of every element. */
  lemma CompressKeepsAllRoots(p: seq<int>, rk: seq<int>, bound: int, x: int)
    requires Forest(p, rk, bound) && 0 <= x < |p|
    ensures Forest(p[x := Root(p, rk, bound, x)], rk, bound)
    ensures forall y :: 0 <= y < |p| ==>
              Root(p[x := Root(p, rk, bound, x)], rk, bound, y) == Root(p, rk, bound, y)
  {
    CompressKeepsRoots(p, rk, bound, x, x);
    forall y | 0 <= y < |p|
      ensures Root(p[x := Root(p, rk, bound, x)], rk, bound, y) == Root(p, rk, bound, y)
    {
      CompressKeepsRoots(p, rk, bound, x, y);
    }
  }

  /** Linking root `c` under root `a` sends every element of `c`'s set to `a` and leaves the others. */
  lemma {:induction false} LinkRoots(p: seq<int>, rk: seq<int>, bound: int,
                                     q: seq<int>, rk2: seq<int>, bound2: int, a: int, c: int, z: int)
    requires Forest(p, rk, bound) && 0 <= a < |p| && 0 <= c < |p| && a != c
    requires p[a] == a && p[c] == c
    requires q == p[c := a] && Forest(q, rk2, bound2)
    requires 0 <= z < |p|
    ensures Root(q, rk2, bound2, z) == if Root(p, rk, bound, z) == c then a else Root(p, rk, bound, z)
    decreases bound - rk[z]
  {
    if z == c {
      assert Root(q, rk2, bound2, a) == a;
    } else if p[z] != z {
      LinkRoots(p, rk, bound, q, rk2, bound2, a, c, p[z]);
    }
  }

  /** The root that represents the merged set after `UnionSet(x, y)`: the higher-ranked root, `x`'s on a tie. */
  ghost function Winner(p: seq<int>, rk: seq<int>, bound: int, x: int, y: int): int
    requires Forest(p, rk, bound) && 0 <= x < |p| && 0 <= y < |p|
  {
    var rx := Root(p, rk, bound, x);
    var ry := Root(p, rk, bound, y);
    if rk[rx] < rk[ry] then ry else rx
  }

  /** The root of `z` once the sets of `x` and `y` are merged. */
  ghost function RootAfterUnion(p: seq<int>, rk: seq<int>, bound: int, x: int, y: int, z: int): int
    requires Forest(p, rk, bound) && 0 <= x < |p| && 0 <= y < |p| && 0 <= z < |p|
  {
    var rz := Root(p, rk, bound, z);
    if rz == Root(p, rk, bound, x) || rz == Root(p, rk, bound, y) then Winner(p, rk, bound, x, y) else rz
  }

  /** The ranks after `UnionSet(x, y)`: only a tie between two distinct roots raises one, by exactly 1. */
  ghost function RankAfterUnion(p: seq<int>, rk: seq<int>, bound: int, x: int, y: int): seq<int>
    requires Forest(p, rk, bound) && 0 <= x < |p| && 0 <= y < |p|
  {
    var rx := Root(p, rk, bound, x);
    var ry := Root(p, rk, bound, y);
    if rx != ry && rk[rx] == rk[ry] then rk[rx := rk[rx] + 1] else rk
  }

  /** When `x` and `y` already share a root, the union changes no element's root. */
  lemma SameRootUnion(p0: seq<int>, p: seq<int>, rk: seq<int>, b: int, x: int, y: int)
    requires Forest(p0, rk, b) && Forest(p, rk, b) && |p0| == |p|
    requires 0 <= x < |p0| && 0 <= y < |p0| && Root(p0, rk, b, x) == Root(p0, rk, b, y)
    requires forall z :: 0 <= z < |p| ==> Root(p, rk, b, z) == Root(p0, rk, b, z)
    ensures forall z :: 0 <= z < |p| ==> Root(p, rk, b, z) == RootAfterUnion(p0, rk, b, x, y, z)
  {
  }

  /** Any forest whose roots are those `RootAfterUnion` prescribes puts `x` and `y` in one set. */
  lemma UnionJoins(p0: seq<int>, rk: seq<int>, b: int, q: seq<int>, rk2: seq<int>, b2: int, x: int, y: int)
    requires Forest(p0, rk, b) && Forest(q, rk2, b2) && |p0| == |q|
    requires 0 <= x < |p0| && 0 <= y < |p0|
    requires forall z :: 0 <= z < |q| ==> Root(q, rk2, b2, z) == RootAfterUnion(p0, rk, b, x, y, z)
    ensures Root(q, rk2, b2, x) == Root(q, rk2, b2, y)
  {
    assert Root(q, rk2, b2, x) == RootAfterUnion(p0, rk, b, x, y, x);
    assert Root(q, rk2, b2, y) == RootAfterUnion(p0, rk, b, x, y, y);
  }

  /** The two non-tie branches of `UnionSet`: link root `c` under the strictly higher-ranked root `a`. */
  lemma Relink(p0: seq<int>, p2: seq<int>, rk: seq<int>, b: int, a: int, c: int, x: int, y: int)
    requires Forest(p0, rk, b) && Forest(p2, rk, b) && |p0| == |p2|
    requires 0 <= x < |p0| && 0 <= y < |p0|
    requires forall z :: 0 <= z < |p2| ==> Root(p2, rk, b, z) == Root(p0, rk, b, z)
    requires {a, c} == {Root(p0, rk, b, x), Root(p0, rk, b, y)} && a != c
    requires p2[a] == a && p2[c] == c && rk[c] < rk[a]
    ensures Forest(p2[c := a], rk, b)
    ensures forall z :: 0 <= z < |p2| ==> Root(p2[c := a], rk, b, z) == RootAfterUnion(p0, rk, b, x, y, z)
  {
    var q := p2[c := a];
    assert Forest(q, rk, b) by {
      forall i | 0 <= i < |q| && q[i] != i ensures rk[i] < rk[q[i]] {
        if i != c { assert p2[i] != i; }
      }
    }
    forall z | 0 <= z < |p2| ensures Root(q, rk, b, z) == RootAfterUnion(p0, rk, b, x, y, z) {
      LinkRoots(p2, rk, b, q, rk, b, a, c, z);
    }
  }

  /** The tie branch of `UnionSet`: link root `c` under root `a` of equal rank and raise `a`'s rank by 1. */
  lemma RelinkTie(p0: seq<int>, p2: seq<int>, rk: seq<int>, b: int, a: int, c: int, x: int, y: int)
    requires Forest(p0, rk, b) && Forest(p2, rk, b) && |p0| == |p2|
    requires 0 <= x < |p0| && 0 <= y < |p0|
    requires forall z :: 0 <= z < |p2| ==> Root(p2, rk, b, z) == Root(p0, rk, b, z)
    requires a == Root(p0, rk, b, x) && c == Root(p0, rk, b, y) && a != c
    requires p2[a] == a && p2[c] == c && rk[c] == rk[a]
    ensures Forest(p2[c := a], rk[a := rk[a] + 1], if rk[a] + 1 > b then rk[a] + 1 else b)
    ensures forall z :: 0 <= z < |p2| ==>
              Root(p2[c := a], rk[a := rk[a] + 1], if rk[a] + 1 > b then rk[a] + 1 else b, z)
              == RootAfterUnion(p0, rk, b, x, y, z)
  {
    var q, rk2 := p2[c := a], rk[a := rk[a] + 1];
    var b2 := if rk[a] + 1 > b then rk[a] + 1 else b;
    assert Forest(q, rk2, b2) by {
      forall i | 0 <= i < |q| && q[i] != i ensures rk2[i] < rk2[q[i]] {
        if i != c { assert p2[i] != i && rk[i] < rk[p2[i]]; }
      }
    }
    forall z | 0 <= z < |p2| ensures Root(q, rk2, b2, z) == RootAfterUnion(p0, rk, b, x, y, z) {
      LinkRoots(p2, rk, b, q, rk2, b2, a, c, z);
    }
  }

  class UnionFind {
    var parent: array<int>
    var rank: array<int>
    /** An upper bound on every rank; it gives `Find` its termination measure. */
    ghost var bound: int

    ghost predicate Valid()
      reads this, parent, rank
    {
      parent != rank && Forest(parent[..], rank[..], bound)
    }

    /** `UnionFind(n)`: every element is its own parent, with rank 0. */
    constructor (n: nat)
      ensures Valid() && fresh(parent) && fresh(rank)
      ensures parent.Length == n
      ensures forall i :: 0 <= i < n ==> parent[i] == i && rank[i] == 0
    {
      var p := new int[n];
      rank := new int[n](_ => 0);
      for i := 0 to n
        modifies p
        invariant forall k :: 0 <= k < i ==> p[k] == k
      {
        p[i] := i;
      }
      parent := p;
      bound := 0;
    }

    /** `find(x)`: returns the root of `x` and points `x` (and the path above it) at that root. */
    method Find(x: int) returns (r: int)
      requires Valid() && 0 <= x < parent.Length
      modifies parent
      ensures Valid()
      ensures r == Root(old(parent[..]), rank[..], bound, x)
      ensures parent[r] == r && parent[x] == r
      ensures forall y :: 0 <= y < parent.Length ==>
                Root(parent[..], rank[..], bound, y) == Root(old(parent[..]), rank[..], bound, y)
      decreases bound - rank[x]
    {
      if parent[x] != x {
        var root := Find(parent[x]);
        ghost var p1 := parent[..];
        assert Root(p1, rank[..], bound, x) == root;
        parent[x] := root;
        assert parent[..] == p1[x := root];
        CompressKeepsAllRoots(p1, rank[..], bound, x);
      }
      r := parent[x];
    }

    /** `unionSet(x, y)`: merges the sets of `x` and `y`, linking the lower-ranked root under the other. */
    method UnionSet(x: int, y: int)
      requires Valid() && 0 <= x < parent.Length && 0 <= y < parent.Length
      modifies parent, rank, this`bound
      ensures Valid()
      ensures Root(parent[..], rank[..], bound, x) == Root(parent[..], rank[..], bound, y)
      ensures forall z :: 0 <= z < parent.Length ==>
                Root(parent[..], rank[..], bound, z) == RootAfterUnion(old(parent[..]), old(rank[..]), old(bound), x, y, z)
      ensures rank[..] == RankAfterUnion(old(parent[..]), old(rank[..]), old(bound), x, y)
    {
      ghost var p0 := parent[..];
      var rootX := Find(x);
      ghost var p1 := parent[..];
      var rootY := Find(y);
      assert forall z :: 0 <= z < parent.Length ==> Root(parent[..], rank[..], bound, z) == Root(p1, rank[..], bound, z);
      Link(rootX, rootY, p0, x, y);
    }

    /** The linking half of `unionSet`, once both roots are found and the forest still has the roots it started with. */
    method Link(rootX: int, rootY: int, ghost p0: seq<int>, ghost x: int, ghost y: int)
      requires Valid() && |p0| == parent.Length && 0 <= x < |p0| && 0 <= y < |p0|
      requires Forest(p0, rank[..], bound)
      requires forall z :: 0 <= z < |p0| ==> Root(parent[..], rank[..], bound, z) == Root(p0, rank[..], bound, z)
      requires rootX == Root(p0, rank[..], bound, x) && rootY == Root(p0, rank[..], bound, y)
      modifies parent, rank, this`bound
      ensures Valid()
      ensures Root(parent[..], rank[..], bound, x) == Root(parent[..], rank[..], bound, y)
      ensures forall z :: 0 <= z < parent.Length ==>
                Root(parent[..], rank[..], bound, z) == RootAfterUnion(p0, old(rank[..]), old(bound), x, y, z)
      ensures rank[..] == RankAfterUnion(p0, old(rank[..]), old(bound), x, y)
    {
      ghost var rk, b := rank[..], bound;
      ghost var ranks := RankAfterUnion(p0, rk, b, x, y);
      if rootX == rootY {
        assert ranks == rk;
        SameRootUnion(p0, parent[..], rk, b, x, y);
      } else if rank[rootX] == rank[rootY] {
        assert ranks == rk[rootX := rk[rootX] + 1];
        LinkTie(rootX, rootY, p0, rk, b, x, y);
      } else {
        var a, c := if rank[rootX] > rank[rootY] then rootX else rootY,
                    if rank[rootX] > rank[rootY] then rootY else rootX;
        assert ranks == rk;
        LinkUnder(a, c, p0, rk, b, x, y);
      }
      assert rank[..] == ranks;
      UnionJoins(p0, rk, b, parent[..], rank[..], bound, x, y);
    }

    /** Links root `c` under the strictly higher-ranked root `a`; ranks stay as they are. */
    method LinkUnder(a: int, c: int, ghost p0: seq<int>, ghost rk: seq<int>, ghost b: int, ghost x: int, ghost y: int)
      requires Valid() && rk == rank[..] && b == bound
      requires |p0| == parent.Length && 0 <= x < |p0| && 0 <= y < |p0|
      requires Forest(p0, rank[..], bound)
      requires forall z :: 0 <= z < |p0| ==> Root(parent[..], rank[..], bound, z) == Root(p0, rank[..], bound, z)
      requires {a, c} == {Root(p0, rank[..], bound, x), Root(p0, rank[..], bound, y)} && a != c
      requires rank[c] < rank[a]
      modifies parent
      ensures Valid() && rank[..] == rk && bound == b
      ensures forall z :: 0 <= z < parent.Length ==>
                Root(parent[..], rank[..], bound, z) == RootAfterUnion(p0, rk, b, x, y, z)
    {
      ghost var p2 := parent[..];
      assert Root(p2, rank[..], bound, a) == a && Root(p2, rank[..], bound, c) == c;
      parent[c] := a;
      assert parent[..] == p2[c := a];
      Relink(p0, p2, rank[..], bound, a, c, x, y);
    }

    /** Links root `c` under root `a` of the same rank and raises `a`'s rank by one. */
    method LinkTie(a: int, c: int, ghost p0: seq<int>, ghost rk: seq<int>, ghost b: int, ghost x: int, ghost y: int)
      requires Valid() && rk == rank[..] && b == bound
      requires |p0| == parent.Length && 0 <= x < |p0| && 0 <= y < |p0|
      requires Forest(p0, rank[..], bound)
      requires forall z :: 0 <= z < |p0| ==> Root(parent[..], rank[..], bound, z) == Root(p0, rank[..], bound, z)
      requires a == Root(p0, rank[..], bound, x) && c == Root(p0, rank[..], bound, y) && a != c
      requires rank[c] == rank[a]
      modifies parent, rank, this`bound
      ensures Valid()
      ensures rank[..] == rk[a := rk[a] + 1]
      ensures forall z :: 0 <= z < parent.Length ==>
                Root(parent[..], rank[..], bound, z) == RootAfterUnion(p0, rk, b, x, y, z)
    {
      ghost var p2 := parent[..];
      assert Root(p2, rk, b, a) == a && Root(p2, rk, b, c) == c;
      parent[c] := a;
      rank[a] := rank[a] + 1;
      bound := if rank[a] > bound then rank[a] else bound;
      assert parent[..] == p2[c := a];
      assert rank[..] == rk[a := rk[a] + 1];
      RelinkTie(p0, p2, rk, b, a, c, x, y);
    }
  }
}
