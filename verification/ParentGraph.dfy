/** Parent links between docket entries, and the memoised walk that looks for a cycle in them. */
module ParentGraph {

  import opened Utf16Text

  type Id = Text

  // The `n`-th link from `x`; none if the chain ends before.
  function Ancestor(parents: map<Id, Id>, x: Id, n: nat): Option<Id>
    decreases n
  {
    if n == 0 then Some(x)
    else if x in parents then Ancestor(parents, parents[x], n - 1)
    else None
  }

  ghost predicate Follows(parents: map<Id, Id>, x: Id, y: Id, n: nat) {
    Ancestor(parents, x, n) == Some(y)
  }

  ghost predicate HasCycle(parents: map<Id, Id>) {
    exists x, n: nat :: n > 0 && Follows(parents, x, x, n)
  }

  // The chain from `x` ends, after `n` links, at an entry without a parent.
  ghost predicate EndsAt(parents: map<Id, Id>, x: Id, root: Id, n: nat) {
    Follows(parents, x, root, n) && root !in parents
  }

  ghost predicate Rooted(parents: map<Id, Id>, x: Id) {
    exists root, n: nat :: EndsAt(parents, x, root, n)
  }

  lemma {:induction false} AncestorsCompose(parents: map<Id, Id>, x: Id, y: Id, n: nat, m: nat)
    requires Follows(parents, x, y, n)
    ensures Ancestor(parents, x, n + m) == Ancestor(parents, y, m)
    decreases n
  {
    if n > 0 {
      AncestorsCompose(parents, parents[x], y, n - 1, m);
    }
  }

  lemma {:induction false} NothingAfterTheEnd(parents: map<Id, Id>, x: Id, n: nat, m: nat)
    requires n <= m && Ancestor(parents, x, n).None?
    ensures Ancestor(parents, x, m).None?
    decreases n
  {
    if n > 0 && x in parents {
      NothingAfterTheEnd(parents, parents[x], n - 1, m - 1);
    }
  }

  lemma {:induction false} CycleRepeats(parents: map<Id, Id>, x: Id, n: nat, times: nat)
    requires Follows(parents, x, x, n)
    ensures Follows(parents, x, x, n * times)
    decreases times
  {
    if times > 0 {
      CycleRepeats(parents, x, n, times - 1);
      AncestorsCompose(parents, x, x, n * (times - 1), n);
      assert n * (times - 1) + n == n * times;
    }
  }

  // A chain that ends cannot come back to where it started.
  lemma {:induction false} RootedIsOffCycles(parents: map<Id, Id>, x: Id, n: nat)
    requires n > 0 && Rooted(parents, x)
    ensures !Follows(parents, x, x, n)
  {
    if Follows(parents, x, x, n) {
      var root, k: nat :| EndsAt(parents, x, root, k);
      CycleRepeats(parents, x, n, k + 1);
      AncestorsCompose(parents, x, root, k, 1);
      assert n * (k + 1) >= k + 1 by {
        assert n * (k + 1) == (n - 1) * (k + 1) + (k + 1);
      }
      NothingAfterTheEnd(parents, x, k + 1, n * (k + 1));
    }
  }

  lemma FollowingARootedEntry(parents: map<Id, Id>, x: Id, y: Id, n: nat)
    requires Follows(parents, x, y, n) && Rooted(parents, y)
    ensures Rooted(parents, x)
  {
    var root, k: nat :| EndsAt(parents, y, root, k);
    AncestorsCompose(parents, x, y, n, k);
    assert EndsAt(parents, x, root, n + k);
  }

  // Entries on the chain being walked, each with a link count to where the walk stands.
  ghost predicate OnChain(parents: map<Id, Id>, chain: set<Id>, current: Id) {
    forall x :: x in chain ==> x in parents && exists n: nat :: n > 0 && Follows(parents, x, current, n)
  }

  lemma ChainStep(parents: map<Id, Id>, chain: set<Id>, current: Id)
    requires OnChain(parents, chain, current) && current in parents
    ensures OnChain(parents, chain + {current}, parents[current])
  {
    forall x | x in chain + {current}
      ensures exists n: nat :: n > 0 && Follows(parents, x, parents[current], n)
    {
      var n: nat :| Follows(parents, x, current, n) by {
        if x !in chain {
          assert Follows(parents, x, current, 0);
        }
      }
      AncestorsCompose(parents, x, current, n, 1);
      assert Ancestor(parents, parents[current], 0) == Some(parents[current]);
      assert Follows(parents, x, parents[current], n + 1);
    }
  }

  lemma ChainIsRooted(parents: map<Id, Id>, chain: set<Id>, current: Id)
    requires OnChain(parents, chain, current) && Rooted(parents, current)
    ensures forall x :: x in chain ==> Rooted(parents, x)
  {
    forall x | x in chain ensures Rooted(parents, x) {
      var n: nat :| Follows(parents, x, current, n);
      FollowingARootedEntry(parents, x, current, n);
    }
  }

  lemma RootlessHasNoParent(parents: map<Id, Id>, x: Id)
    requires x !in parents
    ensures Rooted(parents, x)
  {
    assert EndsAt(parents, x, x, 0);
  }

  // Finitely many links without a cycle: a walk that never returns to its chain must end.
  lemma {:induction false} WalkEnds(parents: map<Id, Id>, chain: set<Id>, current: Id)
    requires !HasCycle(parents) && chain <= parents.Keys && OnChain(parents, chain, current)
    ensures Rooted(parents, current)
    decreases parents.Keys - chain
  {
    if current in parents {
      assert current !in chain;
      ChainStep(parents, chain, current);
      WalkEnds(parents, chain + {current}, parents[current]);
      assert Ancestor(parents, parents[current], 0) == Some(parents[current]);
      FollowingARootedEntry(parents, current, parents[current], 1);
    } else {
      RootlessHasNoParent(parents, current);
    }
  }

  // There is no cycle exactly when every chain ends.
  lemma {:induction false} AcyclicExactlyWhenRooted(parents: map<Id, Id>)
    ensures !HasCycle(parents) <==> forall x :: Rooted(parents, x)
  {
    if !HasCycle(parents) {
      forall x ensures Rooted(parents, x) {
        WalkEnds(parents, {}, x);
      }
    }
    if forall x :: Rooted(parents, x) {
      forall x, n: nat | n > 0 ensures !Follows(parents, x, x, n) {
        RootedIsOffCycles(parents, x, n);
      }
    }
  }

  // Follows one chain until it meets an entry already known to be rooted, or one without a parent.
  method WalkChain(parents: map<Id, Id>, resolved: set<Id>, start: Id)
    returns (cyclic: bool, chain: set<Id>, steps: nat)
    requires forall x :: x in resolved ==> Rooted(parents, x)
    ensures chain <= parents.Keys && chain !! resolved && steps == |chain|
    ensures cyclic ==> HasCycle(parents)
    ensures !cyclic ==> (start in parents ==> start in resolved || start in chain)
                        && forall x :: x in chain ==> Rooted(parents, x)
  {
    chain, steps := {}, 0;
    var current := start;
    while current in parents && current !in resolved
      invariant chain <= parents.Keys && chain !! resolved && steps == |chain|
      invariant OnChain(parents, chain, current)
      invariant start == current || start in chain
      decreases parents.Keys - chain
    {
      if current in chain {
        cyclic := true;
        return;
      }
      ChainStep(parents, chain, current);
      chain := chain + {current};
      current := parents[current];
      steps := steps + 1;
    }
    if current !in parents {
      RootlessHasNoParent(parents, current);
    }
    ChainIsRooted(parents, chain, current);
    cyclic := false;
  }

  // Says whether the links have a cycle, and counts the links followed: there are never more of them
  // than entries with a parent.
  method FindCycle(parents: map<Id, Id>, entries: seq<Id>) returns (cyclic: bool, steps: nat)
    requires forall x :: x in parents ==> x in entries
    ensures cyclic <==> HasCycle(parents)
    ensures steps <= |parents.Keys|
  {
    hide Rooted, HasCycle;
    var resolved: set<Id> := {};
    steps := 0;
    for i := 0 to |entries|
      invariant resolved <= parents.Keys && steps == |resolved| <= |parents.Keys|
      invariant forall x :: x in resolved ==> Rooted(parents, x)
      invariant forall k :: 0 <= k < i && entries[k] in parents ==> entries[k] in resolved
    {
      var found, chain, followed := WalkChain(parents, resolved, entries[i]);
      DisjointCardinality(resolved, chain, parents.Keys);
      steps := steps + followed;
      if found {
        return true, steps;
      }
      resolved := resolved + chain;
    }
    AllRootedIsAcyclic(parents, resolved);
    return false, steps;
  }

  lemma AllRootedIsAcyclic(parents: map<Id, Id>, resolved: set<Id>)
    requires parents.Keys <= resolved && forall x :: x in resolved ==> Rooted(parents, x)
    ensures !HasCycle(parents)
  {
    forall x ensures Rooted(parents, x) {
      if x !in parents {
        RootlessHasNoParent(parents, x);
      }
    }
    AcyclicExactlyWhenRooted(parents);
  }

  lemma DisjointCardinality(a: set<Id>, b: set<Id>, whole: set<Id>)
    requires a <= whole && b <= whole && a !! b
    ensures |a + b| == |a| + |b| <= |whole|
  {
    assert whole == (a + b) + (whole - (a + b));
  }

  // The link from `e` leads to an entry of the same docket.
  ghost predicate StaysInDocket(parents: map<Id, Id>, docketOf: map<Id, Id>, e: Id)
    requires e in parents
  {
    e in docketOf && parents[e] in docketOf && docketOf[e] == docketOf[parents[e]]
  }

  // Links that stay within one docket lead to a root in the same docket.
  lemma {:induction false} ChainStaysInDocket(parents: map<Id, Id>, docketOf: map<Id, Id>, x: Id, y: Id, n: nat)
    requires x in docketOf && Follows(parents, x, y, n)
    requires forall e :: e in parents ==> StaysInDocket(parents, docketOf, e)
    ensures y in docketOf && docketOf[y] == docketOf[x]
    decreases n
  {
    if n > 0 {
      assert StaysInDocket(parents, docketOf, x);
      ChainStaysInDocket(parents, docketOf, parents[x], y, n - 1);
    }
  }
}
