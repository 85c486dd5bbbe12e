/** The order of the kernel's lists over whole runs: ended tasks are reclaimed and waiting tasks are queued first
    in, first out (kernel/lifecycle/lifecycle.c, kernel/sched/wait_queue.c). */
module Orders {
  import opened Guard
  import opened Rings
  import opened Tasks
  import opened Owners
  import opened Runs

  /** t stands before r in the list. */
  ghost predicate Before(q: seq<nat>, t: nat, r: nat) {
    exists i, j :: 0 <= i < j < |q| && q[i] == t && q[j] == r
  }

  lemma BeforeAppend(q: seq<nat>, x: nat, t: nat, r: nat)
    requires Before(q, t, r)
    ensures Before(q + [x], t, r)
  {
    var i, j :| 0 <= i < j < |q| && q[i] == t && q[j] == r;
    assert (q + [x])[i] == t && (q + [x])[j] == r;
  }

  lemma AppendBehind(q: seq<nat>, t: nat, r: nat)
    requires t in q
    ensures Before(q + [r], t, r)
  {
    var i :| 0 <= i < |q| && q[i] == t;
    assert (q + [r])[i] == t && (q + [r])[|q|] == r;
  }

  /** Deleting another member keeps the order. */
  lemma {:induction false} BeforeWithout(q: seq<nat>, x: nat, t: nat, r: nat)
    requires Before(q, t, r) && t != x && r != x
    ensures Before(Without(q, x), t, r)
  {
    var i, j :| 0 <= i < j < |q| && q[i] == t && q[j] == r;
    if q[0] == x {
      assert q[1..][i - 1] == t && q[1..][j - 1] == r;
    } else if i == 0 {
      assert q[1..][j - 1] == r;
      assert r in Without(q[1..], x);
      var m :| 0 <= m < |Without(q[1..], x)| && Without(q[1..], x)[m] == r;
      assert Without(q, x)[0] == t && Without(q, x)[m + 1] == r;
    } else {
      assert q[1..][i - 1] == t && q[1..][j - 1] == r;
      BeforeWithout(q[1..], x, t, r);
      var a, b :| 0 <= a < b < |Without(q[1..], x)| && Without(q[1..], x)[a] == t && Without(q[1..], x)[b] == r;
      assert Without(q, x)[a + 1] == t && Without(q, x)[b + 1] == r;
    }
  }

  // ---- ended tasks ------------------------------------------------------------------------

  /** What a step does to the list of ended tasks. */
  lemma PendingStep(s: State, op: Op, u: State)
    requires Leads(s, op, u)
    ensures u.pending == if op.Exit? then s.pending + [s.current] else if op.Remove? then Without(s.pending, op.t) else s.pending
  {
    LeadsFacts(s, op, u);
  }

  lemma {:induction false} StaysEnded(states: seq<State>, ops: seq<Op>, t: nat, a: nat, n: nat)
    requires IsRun(states, ops) && a < n <= |ops| && ops[a].Exit? && states[a].current == t
    requires forall m | a <= m < n && ops[m].Remove? :: ops[m].t != t
    ensures t in states[n].pending
    decreases n
  {
    PendingStep(states[n - 1], ops[n - 1], states[n]);
    if a < n - 1 {
      StaysEnded(states, ops, t, a, n - 1);
    }
  }

  /** In every run, of two ended tasks that have not been removed the one that ended first stands first, and so
      is reclaimed first. */
  lemma {:induction false} EndedInOrder(states: seq<State>, ops: seq<Op>, t: nat, r: nat, a: nat, b: nat, n: nat)
    requires IsRun(states, ops) && a < b < n <= |ops|
    requires ops[a].Exit? && states[a].current == t && ops[b].Exit? && states[b].current == r
    requires forall m | a <= m < n && ops[m].Remove? :: ops[m].t != t && ops[m].t != r
    ensures Before(states[n].pending, t, r)
    decreases n
  {
    PendingStep(states[n - 1], ops[n - 1], states[n]);
    var q := states[n - 1].pending;
    if b == n - 1 {
      StaysEnded(states, ops, t, a, b);
      AppendBehind(q, t, r);
    } else {
      EndedInOrder(states, ops, t, r, a, b, n - 1);
      if ops[n - 1].Exit? { BeforeAppend(q, states[n - 1].current, t, r); }
      if ops[n - 1].Remove? { BeforeWithout(q, ops[n - 1].t, t, r); }
    }
  }

  /** Step m reclaims the head of the list of ended tasks. */
  ghost predicate Reaps(states: seq<State>, ops: seq<Op>, m: nat)
    requires m < |ops| <= |states|
  {
    ops[m].Remove? && states[m].pending != [] && ops[m].t == states[m].pending[0]
  }

  ghost function ReapCount(states: seq<State>, ops: seq<Op>, a: nat, n: nat): nat
    requires a <= n <= |ops| <= |states|
  {
    if a == n then 0 else ReapCount(states, ops, a, n - 1) + (if Reaps(states, ops, n - 1) then 1 else 0)
  }

  /** Another member's place after one is deleted. */
  lemma {:induction false} PlaceWithout(q: seq<nat>, x: nat, k: nat) returns (k': nat)
    requires k < |q| && q[k] != x
    ensures k' < |Without(q, x)| && Without(q, x)[k'] == q[k] && k' <= k && (q[0] == x ==> k' + 1 == k)
  {
    if q[0] == x {
      k' := k - 1;
    } else if k == 0 {
      k' := 0;
    } else {
      assert q[1..][k - 1] == q[k];
      var i := PlaceWithout(q[1..], x, k - 1);
      k' := i + 1;
    }
  }

  /** An ended task that is not removed moves up with every reclamation. */
  lemma {:induction false} MovesUp(states: seq<State>, ops: seq<Op>, t: nat, k: nat, a: nat, n: nat) returns (k': nat)
    requires IsRun(states, ops) && a <= n <= |ops| && k < |states[a].pending| && states[a].pending[k] == t
    requires forall m | a <= m < n && ops[m].Remove? :: ops[m].t != t
    ensures k' < |states[n].pending| && states[n].pending[k'] == t && k' + ReapCount(states, ops, a, n) <= k
    decreases n
  {
    if a == n { return k; }
    k' := MovesUp(states, ops, t, k, a, n - 1);
    PendingStep(states[n - 1], ops[n - 1], states[n]);
    if ops[n - 1].Remove? { k' := PlaceWithout(states[n - 1].pending, ops[n - 1].t, k'); }
  }

  /** In every run, the ended task at index k of the list is gone after k + 1 reclamations. */
  lemma ReapedWithin(states: seq<State>, ops: seq<Op>, t: nat, k: nat, a: nat, n: nat)
    requires IsRun(states, ops) && a <= n <= |ops| && k < |states[a].pending| && states[a].pending[k] == t
    requires ReapCount(states, ops, a, n) > k
    ensures exists m | a <= m < n :: ops[m].Remove? && ops[m].t == t
  {
    if forall m | a <= m < n && ops[m].Remove? :: ops[m].t != t {
      var _ := MovesUp(states, ops, t, k, a, n);
    }
  }

  // ---- waiting tasks ----------------------------------------------------------------------

  /** The waiting tasks of queue w. */
  ghost function Waiting(s: State, w: nat): seq<nat> { if w in s.waits then s.waits[w] else [] }

  /** What a step does to a wait queue. */
  lemma WaitingStep(s: State, op: Op, u: State, w: nat)
    requires Inv(s) && Leads(s, op, u)
    ensures Waiting(u, w) == if op.Block? && op.w == w then Waiting(s, w) + [s.current]
                             else if op.WakeUp? && op.t in s.tasks && s.tasks[op.t].waitQueue == w then Without(Waiting(s, w), op.t)
                             else Waiting(s, w)
  {
    LeadsFacts(s, op, u);
  }

  /** The running task blocks on queue w in step a and is not woken in the steps up to n. */
  ghost predicate Waits(states: seq<State>, ops: seq<Op>, t: nat, w: nat, a: nat, n: nat)
    requires IsRun(states, ops)
  {
    && a < n <= |ops| && ops[a].Block? && ops[a].w == w && states[a].current == t
    && forall m | a < m < n && ops[m].WakeUp? :: ops[m].t != t
  }

  lemma {:induction false} StaysWaiting(states: seq<State>, ops: seq<Op>, t: nat, w: nat, a: nat, n: nat)
    requires IsRun(states, ops) && Inv(states[0]) && Waits(states, ops, t, w, a, n)
    ensures t in Waiting(states[n], w)
    decreases n
  {
    RunInv(states, ops, n - 1);
    WaitingStep(states[n - 1], ops[n - 1], states[n], w);
    if a < n - 1 {
      StaysWaiting(states, ops, t, w, a, n - 1);
    }
  }

  /** In every run, of two tasks that wait in a queue the one that blocked first stands first. */
  lemma {:induction false} WaitingInOrder(states: seq<State>, ops: seq<Op>, t: nat, r: nat, w: nat, a: nat, b: nat, n: nat)
    requires IsRun(states, ops) && Inv(states[0]) && a < b && Waits(states, ops, t, w, a, n) && Waits(states, ops, r, w, b, n)
    ensures Before(Waiting(states[n], w), t, r)
    decreases n
  {
    RunInv(states, ops, n - 1);
    if b == n - 1 {
      StaysWaiting(states, ops, t, w, a, b);
      WaitingStep(states[b], ops[b], states[n], w);
      AppendBehind(Waiting(states[b], w), t, r);
    } else {
      WaitingInOrder(states, ops, t, r, w, a, b, n - 1);
      OrderKept(states[n - 1], ops[n - 1], states[n], w, t, r);
    }
  }

  lemma OrderKept(s: State, op: Op, u: State, w: nat, t: nat, r: nat)
    requires Inv(s) && Leads(s, op, u) && Before(Waiting(s, w), t, r) && (op.WakeUp? ==> op.t != t && op.t != r)
    ensures Before(Waiting(u, w), t, r)
  {
    WaitingStep(s, op, u, w);
    if op.Block? && op.w == w { BeforeAppend(Waiting(s, w), s.current, t, r); }
    if op.WakeUp? { BeforeWithout(Waiting(s, w), op.t, t, r); }
  }
}
