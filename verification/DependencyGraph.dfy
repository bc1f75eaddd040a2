/** Facts about walks along the dependency pointers of a task table, cyclic or not. */
module DependencyGraph {
  import opened Common
  import opened TaskModel

  ghost predicate OnCycle(s: Store, t: TaskId) {
    exists n: nat :: n > 0 && Iter(s, t, n) == Some(t)
  }

  ghost predicate Acyclic(s: Store) {
    forall t :: !OnCycle(s, t)
  }

  /** Walking `i` and then `j` steps is walking `i + j` steps. */
  lemma {:induction false} IterCompose(s: Store, t: TaskId, i: nat, j: nat)
    requires Iter(s, t, i).Some?
    ensures Iter(s, t, i + j) == Iter(s, Iter(s, t, i).value, j)
    decreases i
  {
    if i > 0 {
      IterCompose(s, Next(s, t).value, i - 1, j);
    }
  }

  /** A walk that never leaves from `t` does not see what `t` points at. */
  lemma {:induction false} WalkAvoids(s: Store, s': Store, t: TaskId, a: TaskId, n: nat)
    requires forall x :: x != t ==> Next(s, x) == Next(s', x)
    requires forall i: nat :: i < n ==> Iter(s', a, i) != Some(t)
    ensures Iter(s, a, n) == Iter(s', a, n)
    decreases n
  {
    if n > 0 {
      assert Iter(s', a, 0) == Some(a);
      if Next(s', a).Some? {
        var b := Next(s', a).value;
        forall i: nat | i < n - 1 ensures Iter(s', b, i) != Some(t) {
          assert Iter(s', a, i + 1) == Iter(s', b, i);
        }
        WalkAvoids(s, s', t, b, n - 1);
      }
    }
  }

  /** The first time a walk meets `t`. */
  lemma {:induction false} FirstVisit(s: Store, a: TaskId, t: TaskId, n: nat) returns (m: nat)
    requires Iter(s, a, n) == Some(t)
    ensures m <= n && Iter(s, a, m) == Some(t)
    ensures forall i: nat :: i < m ==> Iter(s, a, i) != Some(t)
  {
    if i: nat :| i < n && Iter(s, a, i) == Some(t) {
      m := FirstVisit(s, a, t, i);
    } else {
      m := n;
    }
  }

  /** Dropping pointers only shortens walks. */
  lemma {:induction false} FewerPointers(s: Store, s': Store, a: TaskId, n: nat)
    requires forall x :: Next(s', x) == None || Next(s', x) == Next(s, x)
    requires Iter(s', a, n).Some?
    ensures Iter(s, a, n) == Iter(s', a, n)
    decreases n
  {
    if n > 0 {
      FewerPointers(s, s', Next(s', a).value, n - 1);
    }
  }

  lemma FewerCycles(s: Store, s': Store, x: TaskId)
    requires forall y :: Next(s', y) == None || Next(s', y) == Next(s, y)
    requires OnCycle(s', x)
    ensures OnCycle(s, x)
  {
    var n: nat :| n > 0 && Iter(s', x, n) == Some(x);
    FewerPointers(s, s', x, n);
  }

  /** Pointing `t` at a parent from which `t` cannot be reached puts nothing on a cycle that was
      not on one before, and takes `t` off any cycle it was on. */
  lemma SafeEdge(s: Store, s': Store, t: TaskId, parent: TaskId, x: TaskId)
    requires forall y :: y != t ==> Next(s, y) == Next(s', y)
    requires Next(s', t) == Some(parent)
    requires !Reaches(s, parent, t)
    requires OnCycle(s', x)
    ensures OnCycle(s, x) && x != t
  {
    var n: nat :| n > 0 && Iter(s', x, n) == Some(x);
    if i: nat :| i < n && Iter(s', x, i) == Some(t) {
      // t itself would lie on the cycle, so the parent would lead back to t
      IterCompose(s', x, n, i);
      IterCompose(s', x, i, n);
      assert Iter(s', t, n) == Some(t) && Iter(s', parent, n - 1) == Some(t);
      var m := FirstVisit(s', parent, t, n - 1);
      WalkAvoids(s, s', t, parent, m);
      assert false;
    } else {
      assert Iter(s', x, 0) == Some(x);
      WalkAvoids(s, s', t, x, n);
    }
  }

  /** Conversely, a parent from which `t` can be reached closes a cycle through `t`. */
  lemma UnsafeEdge(s: Store, s': Store, t: TaskId, parent: TaskId)
    requires forall y :: y != t ==> Next(s, y) == Next(s', y)
    requires Next(s', t) == Some(parent)
    requires Reaches(s, parent, t)
    ensures OnCycle(s', t)
  {
    var n: nat :| Iter(s, parent, n) == Some(t);
    var m := FirstVisit(s, parent, t, n);
    WalkAvoids(s', s, t, parent, m);
    assert Iter(s', t, m + 1) == Some(t);
  }

  /** Every id a walk can visit. */
  function Universe(s: Store, start: TaskId): set<TaskId> {
    {start} + s.Keys + set t | t in s && s[t].dependsOn.Some? :: s[t].dependsOn.value
  }

  /** A set closed under the pointers contains every walk that starts in it. */
  lemma {:induction false} ClosedHoldsWalks(s: Store, visited: set<TaskId>, a: TaskId, n: nat)
    requires a in visited
    requires forall v :: v in visited && Next(s, v).Some? ==> Next(s, v).value in visited
    requires Iter(s, a, n).Some?
    ensures Iter(s, a, n).value in visited
    decreases n
  {
    if n > 0 {
      ClosedHoldsWalks(s, visited, Next(s, a).value, n - 1);
    }
  }
}
