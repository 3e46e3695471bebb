// Filling the catalogue by browsing the server.
//
// The recursion visits an object once for each reference to it and keeps no record of where it has been. The
// browse services of the server are a finite map from nodes to references; other nodes have none.
module Browse {
  import opened Common

  datatype NodeId = StringId(ns: nat, text: string) | NumericId(ns: nat, number: nat) | OtherId(ns: nat)

  datatype NodeClass = Object | Variable | Other

  datatype Reference = Reference(class_: NodeClass, target: NodeId)

  type Graph = map<NodeId, seq<Reference>>

  function References(g: Graph, n: NodeId): seq<Reference> {
    if n in g then g[n] else []
  }

  // What browsing n offers to the catalogue, in order, if it gets by with the given depth of recursion.
  function Browsed(g: Graph, n: NodeId, depth: nat): Option<seq<NodeId>>
    decreases depth, 0
  {
    if depth == 0 then None else BrowsedRefs(g, References(g, n), depth - 1)
  }

  function BrowsedRefs(g: Graph, refs: seq<Reference>, depth: nat): Option<seq<NodeId>>
    decreases depth, |refs| + 1
  {
    if refs == [] then Some([])
    else
      var before := BrowsedRefs(g, refs[..|refs| - 1], depth);
      var last := BrowsedRef(g, refs[|refs| - 1], depth);
      if before.Some? && last.Some? then Some(before.value + last.value) else None
  }

  function BrowsedRef(g: Graph, ref: Reference, depth: nat): Option<seq<NodeId>>
    decreases depth, 1
  {
    if ref.class_.Object? then Browsed(g, ref.target, depth)
    else if ref.class_.Variable? && ref.target.StringId? then Some([ref.target])
    else Some([])
  }

  // ----- reachability -----

  predicate Child(g: Graph, n: NodeId, m: NodeId) { Reference(Object, m) in References(g, n) }

  predicate Offers(g: Graph, n: NodeId, v: NodeId) { v.StringId? && Reference(Variable, v) in References(g, n) }

  // p leads from n through object references.
  ghost predicate PathFrom(g: Graph, n: NodeId, p: seq<NodeId>) {
    && |p| > 0 && p[0] == n
    && forall i :: 0 <= i < |p| - 1 ==> Child(g, p[i], p[i + 1])
  }

  ghost predicate Reaches(g: Graph, n: NodeId, v: NodeId) {
    exists p :: PathFrom(g, n, p) && Offers(g, p[|p| - 1], v)
  }

  lemma Extend(g: Graph, n: NodeId, m: NodeId, p: seq<NodeId>)
    requires Child(g, n, m) && PathFrom(g, m, p)
    ensures PathFrom(g, n, [n] + p)
  {
  }

  lemma Tail(g: Graph, n: NodeId, p: seq<NodeId>)
    requires PathFrom(g, n, p) && |p| > 1
    ensures Child(g, n, p[1]) && PathFrom(g, p[1], p[1..])
  {
  }

  // ----- exactness -----

  lemma {:induction false} RefsOffered(g: Graph, refs: seq<Reference>, depth: nat, v: NodeId)
    requires BrowsedRefs(g, refs, depth).Some?
    ensures v in BrowsedRefs(g, refs, depth).value
       <==> exists r :: r in refs && BrowsedRef(g, r, depth).Some? && v in BrowsedRef(g, r, depth).value
  {
    if refs != [] {
      var front, last := refs[..|refs| - 1], refs[|refs| - 1];
      assert forall r :: r in refs <==> r in front || r == last by { assert refs == front + [last]; }
      assert last in refs;
      var before, here := BrowsedRefs(g, front, depth), BrowsedRef(g, last, depth);
      assert BrowsedRefs(g, refs, depth) == if before.Some? && here.Some? then Some(before.value + here.value) else None;
      RefsOffered(g, front, depth, v);
    }
  }

  // Browsing offers exactly the variables with string ids that are reachable through objects.
  lemma {:induction false} BrowseExact(g: Graph, n: NodeId, depth: nat, v: NodeId)
    requires Browsed(g, n, depth).Some?
    ensures v in Browsed(g, n, depth).value <==> Reaches(g, n, v)
    decreases depth
  {
    var refs, d := References(g, n), depth - 1;
    RefsOffered(g, refs, d, v);
    if r :| r in refs && BrowsedRef(g, r, d).Some? && v in BrowsedRef(g, r, d).value {
      if r.class_.Object? {
        BrowseExact(g, r.target, d, v);
        var p :| PathFrom(g, r.target, p) && Offers(g, p[|p| - 1], v);
        Extend(g, n, r.target, p);
        assert Offers(g, ([n] + p)[|[n] + p| - 1], v);
      } else {
        assert PathFrom(g, n, [n]) && Offers(g, [n][|[n]| - 1], v);
      }
    }
    if Reaches(g, n, v) {
      var p :| PathFrom(g, n, p) && Offers(g, p[|p| - 1], v);
      if |p| == 1 {
        assert BrowsedRef(g, Reference(Variable, v), d) == Some([v]);
      } else {
        Tail(g, n, p);
        RefsDefined(g, refs, d);
        assert Offers(g, p[1..][|p[1..]| - 1], v);
        BrowseExact(g, p[1], d, v);
        assert v in BrowsedRef(g, Reference(Object, p[1]), d).value;
      }
    }
  }

  // ----- termination -----

  lemma {:induction false} RefsDefined(g: Graph, refs: seq<Reference>, depth: nat)
    ensures BrowsedRefs(g, refs, depth).Some? <==> forall r :: r in refs ==> BrowsedRef(g, r, depth).Some?
  {
    if refs != [] {
      var front, last := refs[..|refs| - 1], refs[|refs| - 1];
      assert forall r :: r in refs <==> r in front || r == last by { assert refs == front + [last]; }
      assert last in refs;
      var before, here := BrowsedRefs(g, front, depth), BrowsedRef(g, last, depth);
      assert BrowsedRefs(g, refs, depth) == if before.Some? && here.Some? then Some(before.value + here.value) else None;
      RefsDefined(g, front, depth);
    }
  }

  // A depth suffices exactly when no path has more nodes.
  lemma {:induction false} DepthSuffices(g: Graph, n: NodeId, depth: nat)
    ensures Browsed(g, n, depth).Some? <==> !exists p :: PathFrom(g, n, p) && |p| == depth + 1
    decreases depth
  {
    if depth == 0 {
      assert PathFrom(g, n, [n]);
    } else {
      var refs, d := References(g, n), depth - 1;
      RefsDefined(g, refs, d);
      if r :| r in refs && BrowsedRef(g, r, d).None? {
        DepthSuffices(g, r.target, d);
        var p :| PathFrom(g, r.target, p) && |p| == d + 1;
        Extend(g, n, r.target, p);
      }
      if p :| PathFrom(g, n, p) && |p| == depth + 1 {
        Tail(g, n, p);
        DepthSuffices(g, p[1], d);
        assert BrowsedRef(g, Reference(Object, p[1]), d).None?;
      }
    }
  }

  // A path from n that comes back to a node it has passed.
  ghost predicate Returns(g: Graph, n: NodeId, p: seq<NodeId>) {
    PathFrom(g, n, p) && !NoDuplicates(p)
  }

  lemma {:induction false} Pigeonhole(s: seq<NodeId>, nodes: set<NodeId>)
    requires NoDuplicates(s) && forall i :: 0 <= i < |s| ==> s[i] in nodes
    ensures |s| <= |nodes|
  {
    if s == [] {
    } else {
      var front, last := s[..|s| - 1], s[|s| - 1];
      Pigeonhole(front, nodes - {last});
    }
  }

  lemma LongPathReturns(g: Graph, n: NodeId, p: seq<NodeId>)
    requires PathFrom(g, n, p) && |p| == |g.Keys| + 2
    ensures Returns(g, n, p)
  {
    if NoDuplicates(p) {
      var q := p[..|p| - 1];
      forall i | 0 <= i < |q| ensures q[i] in g.Keys {
        assert Child(g, p[i], p[i + 1]);
      }
      Pigeonhole(q, g.Keys);
    }
  }

  // A path that returns can go round once more.
  lemma GoRound(g: Graph, n: NodeId, p: seq<NodeId>) returns (q: seq<NodeId>)
    requires Returns(g, n, p)
    ensures Returns(g, n, q) && |q| > |p|
  {
    var i, j :| 0 <= i < j < |p| && p[i] == p[j];
    q := p[..j] + p[i..];
    forall k | 0 <= k < |q| - 1 ensures Child(g, q[k], q[k + 1]) {
      if k < j - 1 {
        assert Child(g, p[k], p[k + 1]);
      } else if k == j - 1 {
        assert Child(g, p[k], p[k + 1]);
      } else {
        assert Child(g, p[k - j + i], p[k - j + i + 1]);
      }
    }
    assert q[i] == p[i] && q[j] == p[i];
  }

  lemma {:induction false} AsLongAs(g: Graph, n: NodeId, p: seq<NodeId>, length: nat) returns (q: seq<NodeId>)
    requires Returns(g, n, p) && length > 0
    ensures PathFrom(g, n, q) && |q| == length
    decreases length - |p|
  {
    if |p| >= length {
      q := p[..length];
      forall k | 0 <= k < |q| - 1 ensures Child(g, q[k], q[k + 1]) {
        assert Child(g, p[k], p[k + 1]);
      }
    } else {
      var r := GoRound(g, n, p);
      q := AsLongAs(g, n, r, length);
    }
  }

  // Browsing comes to an end exactly when no path from the start returns to a node it has passed; then a depth of
  // one more than the number of nodes with references suffices.
  lemma BrowseTerminatesExactly(g: Graph, n: NodeId)
    ensures (exists depth :: Browsed(g, n, depth).Some?) <==> !exists p :: Returns(g, n, p)
    ensures (exists depth :: Browsed(g, n, depth).Some?) <==> Browsed(g, n, |g.Keys| + 1).Some?
  {
    DepthSuffices(g, n, |g.Keys| + 1);
    if p :| PathFrom(g, n, p) && |p| == |g.Keys| + 2 {
      LongPathReturns(g, n, p);
    }
    if p :| Returns(g, n, p) {
      forall depth: nat ensures Browsed(g, n, depth).None? {
        DepthSuffices(g, n, depth);
        var q := AsLongAs(g, n, p, depth + 1);
      }
    }
  }

  // ----- order -----

  lemma {:induction false} RefsJoin(g: Graph, a: seq<Reference>, b: seq<Reference>, depth: nat)
    requires BrowsedRefs(g, a + b, depth).Some?
    ensures BrowsedRefs(g, a, depth).Some? && BrowsedRefs(g, b, depth).Some?
    ensures BrowsedRefs(g, a + b, depth).value == BrowsedRefs(g, a, depth).value + BrowsedRefs(g, b, depth).value
  {
    if b == [] {
      assert a + b == a;
    } else {
      assert (a + b)[..|a + b| - 1] == a + b[..|b| - 1] && (a + b)[|a + b| - 1] == b[|b| - 1];
      RefsJoin(g, a, b[..|b| - 1], depth);
    }
  }

  // Depth first, in the order of the references: what a reference leads to is offered after everything the references
  // before it lead to and before everything those behind it lead to; a variable is offered in its place, and everything
  // below an object in the place of the object.
  lemma BrowsedInOrder(g: Graph, n: NodeId, depth: nat, i: nat)
    requires Browsed(g, n, depth).Some? && i < |References(g, n)|
    ensures var refs, d := References(g, n), depth - 1;
            && BrowsedRefs(g, refs[..i], d).Some? && BrowsedRefs(g, refs[i + 1..], d).Some?
            && var before, behind := BrowsedRefs(g, refs[..i], d).value, BrowsedRefs(g, refs[i + 1..], d).value;
               && (refs[i].class_.Object? ==>
                     Browsed(g, refs[i].target, d).Some?
                     && Browsed(g, n, depth).value == before + Browsed(g, refs[i].target, d).value + behind)
               && (refs[i].class_.Variable? && refs[i].target.StringId? ==>
                     Browsed(g, n, depth).value == before + [refs[i].target] + behind)
               && (refs[i].class_.Other? || (refs[i].class_.Variable? && !refs[i].target.StringId?) ==>
                     Browsed(g, n, depth).value == before + behind)
  {
    var refs, d := References(g, n), depth - 1;
    assert refs == refs[..i] + [refs[i]] + refs[i + 1..];
    RefsJoin(g, refs[..i] + [refs[i]], refs[i + 1..], d);
    RefsJoin(g, refs[..i], [refs[i]], d);
    OneRef(g, refs[i], d);
  }

  lemma OneRef(g: Graph, ref: Reference, depth: nat)
    requires BrowsedRefs(g, [ref], depth).Some?
    ensures BrowsedRef(g, ref, depth) == BrowsedRefs(g, [ref], depth)
  {
    assert [ref][..0] == [] && [ref][0] == ref;
    assert BrowsedRefs(g, [], depth) == Some([]);
    var last := BrowsedRef(g, ref, depth);
    assert last.Some? && [] + last.value == last.value;
  }

  // ----- the method -----

  class Catalogue {
    // The nodes passed to addCatalogueEntry.
    var offered: seq<NodeId>

    constructor ()
      ensures offered == []
    {
      offered := [];
    }

    method AddCatalogueEntry(node: NodeId)
      modifies this
      ensures offered == old(offered) + [node]
    {
      offered := offered + [node];
    }

    method BrowseRecursive(server: Graph, startingNode: NodeId, ghost depth: nat)
      requires Browsed(server, startingNode, depth).Some?
      modifies this
      ensures offered == old(offered) + Browsed(server, startingNode, depth).value
      decreases depth
    {
      var results := References(server, startingNode);
      RefsDefined(server, results, depth - 1);
      assert results[..|results|] == results;
      var i := 0;
      while i < |results|
        invariant 0 <= i <= |results|
        invariant BrowsedRefs(server, results[..i], depth - 1).Some?
        invariant offered == old(offered) + BrowsedRefs(server, results[..i], depth - 1).value
      {
        assert results[..i + 1][..i] == results[..i];
        assert BrowsedRef(server, results[i], depth - 1).Some?;
        if results[i].class_.Object? {
          BrowseRecursive(server, results[i].target, depth - 1);
        }
        if results[i].class_.Variable? {
          if results[i].target.StringId? {
            AddCatalogueEntry(results[i].target);
          }
        }
        i := i + 1;
      }
    }
  }
}
