/** The kernel's fixed rings of task pointers: the runqueue (kernel/sched/runqueue.c), a wait queue
    (kernel/sched/wait_queue.c) and the reclamation list (kernel/lifecycle/lifecycle.c). */
module Rings {
  const SLOTS: nat := 256

  /** Slot i places after the head. */
  function Slot(head: nat, i: nat): (p: nat)
    requires head < SLOTS && i <= SLOTS
    ensures p < SLOTS && p == (head + i) % SLOTS
  {
    if head + i < SLOTS then head + i else head + i - SLOTS
  }

  ghost predicate Distinct(q: seq<nat>) {
    forall i, j | 0 <= i < j < |q| :: q[i] != q[j]
  }

  /** The slots hold q from the head on, and NULL elsewhere. */
  ghost predicate Laid(a: seq<nat>, head: nat, q: seq<nat>) {
    && |a| == SLOTS && head < SLOTS && |q| <= SLOTS
    && forall i | 0 <= i < SLOTS :: a[Slot(head, i)] == if i < |q| then q[i] else 0
  }

  /** The queue without its entry i; the others keep their order. */
  function DropAt(q: seq<nat>, i: nat): seq<nat>
    requires i < |q|
  {
    q[..i] + q[i + 1..]
  }

  /** The queue without t. */
  function Without(q: seq<nat>, t: nat): (r: seq<nat>)
    ensures t !in q ==> r == q
    ensures Distinct(q) ==> t !in r
    ensures forall x | x != t :: x in r <==> x in q
  {
    if q == [] then [] else if q[0] == t then q[1..] else [q[0]] + Without(q[1..], t)
  }

  lemma {:induction false} WithoutAt(q: seq<nat>, i: nat)
    requires i < |q| && Distinct(q)
    ensures Without(q, q[i]) == DropAt(q, i)
  {
    if i > 0 {
      WithoutAt(q[1..], i - 1);
      assert DropAt(q, i) == [q[0]] + DropAt(q[1..], i - 1);
    }
  }

  lemma Appended(a: seq<nat>, head: nat, q: seq<nat>, t: nat)
    requires Laid(a, head, q) && |q| < SLOTS
    ensures Laid(a[Slot(head, |q|) := t], head, q + [t])
  {
  }

  lemma Dropped(a: seq<nat>, head: nat, q: seq<nat>)
    requires Laid(a, head, q) && q != []
    ensures Laid(a[head := 0], Slot(head, 1), q[1..])
  {
    var b, h := a[head := 0], Slot(head, 1);
    forall i | 0 <= i < SLOTS ensures b[Slot(h, i)] == if i < |q| - 1 then q[1..][i] else 0 {
      if i < SLOTS - 1 {
        assert Slot(h, i) == Slot(head, i + 1) != head;
      } else {
        assert Slot(h, i) == head;
      }
    }
  }

  /** Entries i+1 .. m have moved down one place. */
  ghost predicate Moving(a: seq<nat>, b: seq<nat>, head: nat, i: nat, m: nat) {
    && |a| == SLOTS == |b| && head < SLOTS && i <= m < SLOTS
    && forall j | 0 <= j < SLOTS :: b[Slot(head, j)] == a[Slot(head, if i <= j < m then j + 1 else j)]
  }

  lemma MovedOne(a: seq<nat>, b: seq<nat>, head: nat, i: nat, m: nat)
    requires Moving(a, b, head, i, m) && m + 1 < SLOTS
    ensures Moving(a, b[Slot(head, m) := b[Slot(head, m + 1)]], head, i, m + 1)
  {
  }

  lemma MovedAll(a: seq<nat>, b: seq<nat>, head: nat, q: seq<nat>, i: nat)
    requires Laid(a, head, q) && i < |q| && Moving(a, b, head, i, |q| - 1)
    ensures Laid(b[Slot(head, |q| - 1) := 0], head, DropAt(q, i))
  {
  }

  lemma StepBack(head: nat, n: nat)
    requires head < SLOTS && 0 < n <= SLOTS
    ensures (Slot(head, n) + SLOTS - 1) % SLOTS == Slot(head, n - 1)
  {
  }

  lemma StillDistinct(q: seq<nat>, i: nat)
    requires Distinct(q) && i < |q| && 0 !in q
    ensures Distinct(DropAt(q, i)) && 0 !in DropAt(q, i)
  {
  }

  lemma {:induction false} WithoutLast(q: seq<nat>, t: nat)
    requires t !in q
    ensures Without(q + [t], t) == q
  {
    if q == [] {
      assert q + [t] == [t];
    } else {
      assert (q + [t])[1..] == q[1..] + [t];
      WithoutLast(q[1..], t);
    }
  }

  class Ring {
    const slots: array<nat>
    var head: nat
    var tail: nat
    var count: nat
    ghost var q: seq<nat>

    /** The members in queue order, without duplicates. */
    ghost predicate Valid()
      reads this, slots
    {
      && slots.Length == SLOTS && Laid(slots[..], head, q)
      && count == |q| && tail == Slot(head, count) && Distinct(q) && 0 !in q
    }

    constructor ()
      ensures Valid() && q == [] && fresh(slots)
    {
      slots := new nat[SLOTS](_ => 0);
      head, tail, count, q := 0, 0, 0, [];
    }

    method Contains(t: nat) returns (found: bool)
      requires Valid()
      ensures found <==> t in q
    {
      for i := 0 to count
        invariant t !in q[..i]
      {
        if slots[(head + i) % SLOTS] == t {
          assert slots[..][Slot(head, i)] == q[i];
          return true;
        }
        assert slots[..][Slot(head, i)] == q[i];
      }
      return false;
    }

    /** Appends a task in an admissible state (ready, blocked without an owner, or terminated, managed and
        registered, depending on the queue), unless it is NULL or already a member or all slots are taken. */
    method Enqueue(t: nat, admissible: bool) returns (ok: bool)
      requires Valid()
      modifies `tail, `count, `q, slots
      ensures Valid()
      ensures ok <==> t != 0 && admissible && |old(q)| < SLOTS && t !in old(q)
      ensures q == old(q) + if ok then [t] else []
    {
      if t == 0 || !admissible || count >= SLOTS { return false; }
      var found := Contains(t);
      if found { return false; }
      Appended(slots[..], head, q, t);
      slots[tail] := t;
      tail := (tail + 1) % SLOTS;
      count := count + 1;
      q := q + [t];
      return true;
    }

    method Peek() returns (t: nat)
      requires Valid()
      ensures t == if q == [] then 0 else q[0]
    {
      assert slots[..][Slot(head, 0)] == slots[head];
      return if count == 0 then 0 else slots[head];
    }

    method Dequeue() returns (t: nat)
      requires Valid()
      modifies `head, `count, `q, slots
      ensures Valid()
      ensures t == if old(q) == [] then 0 else old(q)[0]
      ensures q == if old(q) == [] then [] else old(q)[1..]
    {
      if count == 0 { return 0; }
      assert slots[..][Slot(head, 0)] == slots[head];
      ghost var a := slots[..];
      Dropped(a, head, q);
      t := slots[head];
      slots[head] := 0;
      assert slots[..] == a[head := 0];
      head := (head + 1) % SLOTS;
      count := count - 1;
      q := q[1..];
    }

    /** Deletes t by moving the later entries down one place each. */
    method Remove(t: nat) returns (ok: bool)
      requires Valid()
      modifies `tail, `count, `q, slots
      ensures Valid()
      ensures ok <==> t in old(q)
      ensures q == Without(old(q), t)
    {
      for i := 0 to count
        invariant unchanged(this) && unchanged(slots)
        invariant t !in q[..i]
      {
        assert slots[..][Slot(head, i)] == q[i];
        if slots[(head + i) % SLOTS] == t {
          WithoutAt(q, i);
          Compact(i);
          return true;
        }
      }
      return false;
    }

    /** The same for a wait queue: the task's owner, if it is this queue, is cleared with its membership. */
    method RemoveOwned(t: nat, owner: nat, self: nat) returns (ok: bool, owner': nat)
      requires Valid()
      modifies `tail, `count, `q, slots
      ensures Valid()
      ensures ok <==> t in old(q)
      ensures q == Without(old(q), t)
      ensures owner' == if ok && owner == self then 0 else owner
    {
      ok := Remove(t);
      owner' := if ok && owner == self then 0 else owner;
    }

    /** Moves every entry after i down one place. */
    method ShiftDown(i: nat)
      requires slots.Length == SLOTS && head < SLOTS && i < count <= SLOTS
      modifies slots
      ensures Moving(old(slots[..]), slots[..], head, i, count - 1)
    {
      ghost var a := slots[..];
      for m := i to count - 1
        invariant Moving(a, slots[..], head, i, m)
      {
        ghost var b := slots[..];
        MovedOne(a, b, head, i, m);
        var to, from := Slot(head, m), Slot(head, m + 1);
        slots[to] := slots[from];
        assert slots[..] == b[to := b[from]];
      }
    }

    method Compact(i: nat)
      requires Valid() && i < count
      modifies `tail, `count, `q, slots
      ensures Valid() && q == DropAt(old(q), i)
    {
      ghost var a := slots[..];
      ShiftDown(i);
      ghost var b := slots[..];
      MovedAll(a, b, head, q, i);
      StepBack(head, count);
      StillDistinct(q, i);
      tail := (tail + SLOTS - 1) % SLOTS;
      slots[tail] := 0;
      assert slots[..] == b[tail := 0];
      count := count - 1;
      q := DropAt(q, i);
    }
  }
}
