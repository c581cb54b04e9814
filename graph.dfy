/**
 * Reachability in the attachment graph.  `g` gives every actor the set of
 * actors its links hold as live child instances; a node is reachable from
 * another when a chain of such links leads from one to the other.  A set of
 * actors that contains the children of each of its members contains
 * everything reachable from any of them: this is what lets a depth-first
 * walk with a visited set conclude that it has seen the whole graph.
 */
module ActorGraph {
  import opened AttachmentTypes

  type Succ = map<Handle, set<Handle>>

  /** Every step of `p` goes from an actor to one of its children. */
  ghost predicate IsPath(g: Succ, p: seq<Handle>)
  {
    forall k :: 0 <= k < |p| - 1 ==> p[k] in g && p[k + 1] in g[p[k]]
  }

  /** `b` is reached from `a` by following child links zero or more times. */
  ghost predicate Reachable(g: Succ, a: Handle, b: Handle)
  {
    exists p :: IsPath(g, p) && |p| > 0 && p[0] == a && p[|p| - 1] == b
  }

  /** `s` holds the children of each of its members. */
  ghost predicate Closed(g: Succ, s: set<Handle>)
  {
    forall a :: a in s && a in g ==> g[a] <= s
  }

  lemma ReachableSelf(g: Succ, a: Handle)
    ensures Reachable(g, a, a)
  {
    assert IsPath(g, [a]);
  }

  /** A child of a reachable node is reachable. */
  lemma ReachableStep(g: Succ, a: Handle, b: Handle, c: Handle)
    requires Reachable(g, a, b) && b in g && c in g[b]
    ensures Reachable(g, a, c)
  {
    var p :| IsPath(g, p) && |p| > 0 && p[0] == a && p[|p| - 1] == b;
    var q := p + [c];
    forall k | 0 <= k < |q| - 1
      ensures q[k] in g && q[k + 1] in g[q[k]]
    {
      if k < |p| - 1 {
        assert q[k] == p[k] && q[k + 1] == p[k + 1];
      }
    }
    assert IsPath(g, q) && q[0] == a && q[|q| - 1] == c;
  }

  /** A node reachable from a child is reachable from its parent. */
  lemma ReachablePrepend(g: Succ, a: Handle, c: Handle, b: Handle)
    requires a in g && c in g[a] && Reachable(g, c, b)
    ensures Reachable(g, a, b)
  {
    var p :| IsPath(g, p) && |p| > 0 && p[0] == c && p[|p| - 1] == b;
    var q := [a] + p;
    forall k | 0 <= k < |q| - 1
      ensures q[k] in g && q[k + 1] in g[q[k]]
    {
      if k > 0 {
        assert q[k] == p[k - 1] && q[k + 1] == p[k];
      }
    }
    assert IsPath(g, q) && q[0] == a && q[|q| - 1] == b;
  }

  /** A closed set that holds the start of a path holds its end. */
  lemma {:induction false} ClosedHoldsPath(g: Succ, s: set<Handle>, p: seq<Handle>)
    requires Closed(g, s) && IsPath(g, p) && |p| > 0 && p[0] in s
    ensures p[|p| - 1] in s
  {
    if |p| > 1 {
      var q := p[..|p| - 1];
      assert IsPath(g, q) by {
        forall k | 0 <= k < |q| - 1
          ensures q[k] in g && q[k + 1] in g[q[k]]
        {
          assert q[k] == p[k] && q[k + 1] == p[k + 1];
        }
      }
      ClosedHoldsPath(g, s, q);
      var b := p[|p| - 2];
      assert b == q[|q| - 1];
      assert b in g && p[|p| - 1] in g[b];
    }
  }

  /** A closed set that holds `a` holds everything reachable from `a`. */
  lemma ClosedHoldsReachable(g: Succ, s: set<Handle>, a: Handle, b: Handle)
    requires Closed(g, s) && a in s && Reachable(g, a, b)
    ensures b in s
  {
    var p :| IsPath(g, p) && |p| > 0 && p[0] == a && p[|p| - 1] == b;
    ClosedHoldsPath(g, s, p);
  }
}
