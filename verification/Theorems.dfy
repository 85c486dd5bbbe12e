/** What holds in every state and every run of the scheduler. */
module Theorems {
  import opened Guard
  import opened Rings
  import opened Tasks
  import opened Owners
  import opened Runs

  // ---- one owner --------------------------------------------------------------------------

  datatype Place = Cpu | RunQueue | WaitQueue(w: nat) | Reclamation

  ghost predicate At(s: State, t: nat, place: Place) {
    match place
    case Cpu => s.current == t
    case RunQueue => t in s.rq
    case WaitQueue(w) => w in s.waits && t in s.waits[w]
    case Reclamation => t in s.pending
  }

  ghost function PlaceOf(x: Task): Place
    requires x.state != New && x.state != Sleeping
  {
    match x.state
    case Running => Cpu
    case Ready => RunQueue
    case Blocked => WaitQueue(x.waitQueue)
    case Terminated => Reclamation
  }

  /** Every registered task has exactly one owner, the one its state and its back-pointer name, and
      occurs there once; and nothing but registered tasks is owned. */
  lemma OneOwner(s: State, t: nat, place: Place)
    requires Inv(s) && t != 0
    ensures Known(s, t) ==> s.tasks[t].state != New && s.tasks[t].state != Sleeping
    ensures Known(s, t) ==> (At(s, t, place) <==> place == PlaceOf(s.tasks[t]))
    ensures At(s, t, place) ==> Known(s, t)
    ensures Distinct(s.rq) && Distinct(s.pending) && forall w | w in s.waits :: Distinct(s.waits[w])
  {
    if Known(s, t) { assert Placed(s, t); }
  }

  /** In every state of every run from boot. */
  lemma OneOwnerInEveryRun(states: seq<State>, ops: seq<Op>, start: nat, n: nat, t: nat, place: Place)
    requires IsRun(states, ops) && states[0] == Boot(start) && n <= |ops| && Known(states[n], t)
    ensures states[n].tasks[t].state != New && states[n].tasks[t].state != Sleeping
    ensures At(states[n], t, place) <==> place == PlaceOf(states[n].tasks[t])
  {
    BootInv(start);
    RunInv(states, ops, n);
    OneOwner(states[n], t, place);
  }

  // ---- capacity ---------------------------------------------------------------------------

  lemma {:induction false} DistinctBound(q: seq<nat>, n: nat)
    requires Distinct(q) && forall x | x in q :: 1 <= x <= n
    ensures |q| <= n
    decreases n
  {
    assert q == [] || q[0] in q;
    if n > 0 {
      WithoutDistinct(q, n);
      WithoutLength(q, n);
      WithoutTop(q, n, Without(q, n));
      DistinctBound(Without(q, n), n - 1);
    }
  }

  lemma WithoutTop(q: seq<nat>, n: nat, r: seq<nat>)
    requires Distinct(q) && r == Without(q, n) && n > 0 && forall x | x in q :: 1 <= x <= n
    ensures forall x | x in r :: 1 <= x <= n - 1
  {
  }

  lemma {:induction false} WithoutLength(q: seq<nat>, t: nat)
    requires Distinct(q)
    ensures |Without(q, t)| == if t in q then |q| - 1 else |q|
  {
    if q != [] && q[0] != t {
      WithoutLength(q[1..], t);
      assert t in q <==> t in q[1..];
    }
  }

  function IdOf(s: State, t: nat): nat { if t in s.tasks then s.tasks[t].id else 0 }

  /** Registered tasks have different identifiers, so there are at most 256 of them, and fewer if an
      identifier is unused. */
  lemma TasksBound(s: State, q: seq<nat>, unused: nat)
    requires Static(s) && Distinct(q) && forall t | t in q :: Known(s, t)
    ensures |q| <= MAX_TASKS
    ensures 1 <= unused <= |s.registry| == MAX_TASKS && s.registry[unused - 1] == 0 ==> |q| < MAX_TASKS
  {
    assert |s.registry| == MAX_TASKS by { assert Open(STATIC); }
    var ids := seq(|q|, i requires 0 <= i < |q| => IdOf(s, q[i]));
    forall i, j | 0 <= i < j < |ids| ensures ids[i] != ids[j] {
      assert Known(s, q[i]) && Known(s, q[j]);
    }
    forall x | x in ids ensures 1 <= x <= MAX_TASKS {
      var i :| 0 <= i < |ids| && ids[i] == x;
      assert Known(s, q[i]);
    }
    DistinctBound(ids, MAX_TASKS);
    if 1 <= unused <= |s.registry| && s.registry[unused - 1] == 0 {
      forall i | 0 <= i < |ids| ensures ids[i] != unused { assert Known(s, q[i]); }
      DistinctBound(ids + [unused], MAX_TASKS);
    }
  }

  /** No queue can be full when another task is to be put in it. */
  lemma NeverFull(s: State, t: nat, w: nat)
    requires Inv(s) && Known(s, t)
    ensures t !in s.rq ==> |s.rq| < MAX_TASKS
    ensures t !in s.pending ==> |s.pending| < MAX_TASKS
    ensures w in s.waits && t !in s.waits[w] ==> |s.waits[w]| < MAX_TASKS
  {
    if t !in s.rq { TasksBound(s, s.rq + [t], 0); }
    if t !in s.pending { TasksBound(s, s.pending + [t], 0); }
    if w in s.waits && t !in s.waits[w] {
      assert QueueOk(s, s.waits[w], Blocked, w);
      TasksBound(s, s.waits[w] + [t], 0);
    }
  }

  /** A task with an unused identifier finds room in the runqueue and in any process. */
  lemma RoomForNew(s: State, id: nat, p: nat)
    requires Inv(s) && 1 <= id <= |s.registry| && s.registry[id - 1] == 0 && KnownProc(s, p)
    ensures |s.rq| < MAX_TASKS && |s.procs[p].tasks| < MAX_TASKS
  {
    assert |s.registry| == MAX_TASKS by { assert Open(STATIC); }
    assert MembersOk(s, p) by { assert Open(STATIC); }
    TasksBound(s, s.rq, id);
    TasksBound(s, s.procs[p].tasks, id);
  }

  // ---- the life of a task -----------------------------------------------------------------

  /** Every step changes a task's state only along the legal transitions, and only the task's own removal
      takes it from the registry. */
  lemma LegalChanges(s: State, op: Op, t: nat)
    requires Inv(s) && Enabled(s, op) && Known(s, t) && !(op.Remove? && op.t == t)
    ensures Known(Next(s, op), t)
    ensures var from, to := s.tasks[t].state, Next(s, op).tasks[t].state;
            from == to || (from, to) in {(Ready, Running), (Running, Ready), (Running, Blocked), (Running, Terminated), (Blocked, Ready)}
  {
    StepLegal(s, op, t);
    StepInv(s, op);
    assert Placed(s, t) && Placed(Next(s, op), t);
  }

  lemma StepLegal(s: State, op: Op, t: nat)
    requires Inv(s) && Enabled(s, op) && Known(s, t) && !(op.Remove? && op.t == t)
    ensures Legal(s, Next(s, op), t)
  {
    if op.Start? || op.Yield? || op.Tick? || op.Block? || op.WakeUp? || op.Exit? {
      SchedulingLegal(s, op, t);
    } else {
      match op {
        case Create(r, x, frames) => AdmitLegal(s, r, x, frames, Next(s, op), t);
        case Remove(r, i) => ForgetLegal(s, r, i, Next(s, op), t);
        case _ =>
      }
    }
  }

  /** Task t stays registered, in the same state or in one that may follow it. */
  ghost predicate Legal(s: State, u: State, t: nat)
    requires t in s.tasks
  {
    Known(u, t) && (u.tasks[t].state == s.tasks[t].state || Follows(s.tasks[t].state, u.tasks[t].state))
  }

  lemma SchedulingLegal(s: State, op: Op, t: nat)
    requires Inv(s) && Enabled(s, op) && Known(s, t)
    requires op.Start? || op.Yield? || op.Tick? || op.Block? || op.WakeUp? || op.Exit?
    ensures Legal(s, Next(s, op), t)
  {
    var u, c := Next(s, op), s.current;
    HeadReady(s);
    match op {
      case Start => OneLegal(s, u, s.rq[0], t);
      case Yield(k) => SwitchLegal(s, ToQueue(s, Suspended(s.tasks[c], k), s.frames, k), u, t);
      case Tick(f, k) =>
        if s.rq == [] {
          OneLegal(s, u, c, t);
        } else {
          SwitchLegal(s, ToQueue(s, Framed(s.tasks[c], f).(state := Ready), s.frames[f := k], k), u, t);
        }
      case Block(w, k) => SwitchLegal(s, ToWait(s, w, k), u, t);
      case WakeUp(r) => OneLegal(s, u, r, t);
      case Exit(k) => SwitchLegal(s, ToPending(s, k), u, t);
    }
  }

  lemma HeadReady(s: State)
    requires QueuesOk(s)
    ensures s.rq != [] ==> s.rq[0] in s.tasks && s.tasks[s.rq[0]].state == Ready && s.rq[0] != s.current
  {
    if s.rq != [] { assert Known(s, s.rq[0]); }
  }

  /** One record has changed, along a legal transition or not in its state. */
  lemma OneLegal(s: State, u: State, c: nat, t: nat)
    requires c in s.tasks && c in u.tasks && u.tasks == s.tasks[c := u.tasks[c]] && u.registry == s.registry && Known(s, t)
    requires u.tasks[c].id == s.tasks[c].id && (u.tasks[c].state == s.tasks[c].state || Follows(s.tasks[c].state, u.tasks[c].state))
    ensures Legal(s, u, t)
  {
  }

  /** The running task has left the CPU, and the head of the queue has got it. */
  lemma SwitchLegal(s: State, m: State, u: State, t: nat)
    requires CanSwitch(s) && s.current in m.tasks && m.tasks == s.tasks[s.current := m.tasks[s.current]] && m.registry == s.registry
    requires m.tasks[s.current].id == s.tasks[s.current].id && Follows(s.tasks[s.current].state, m.tasks[s.current].state)
    requires s.rq[0] != s.current && s.tasks[s.rq[0]].state == Ready && m.rq != [] && m.rq[0] == s.rq[0] && u == ToCpu(m) && Known(s, t)
    ensures Legal(s, u, t)
  {
    OneLegal(s, m, s.current, t);
    OneLegal(m, u, m.rq[0], t);
  }

  lemma AdmitLegal(s: State, r: nat, x: Task, frames: map<nat, Cont>, u: State, t: nat)
    requires Static(s) && CanAdmit(s, r, x, frames) && u == Admit(s, r, x, frames) && Known(s, t)
    ensures Legal(s, u, t)
  {
    assert RegistryOk(s) by { assert Open(STATIC); }
    AdmitKnown(s, r, x, frames, u, t);
  }

  lemma ForgetLegal(s: State, r: nat, i: nat, u: State, t: nat)
    requires Static(s) && CanForget(s, r, i) && u == Forget(s, r, i) && Known(s, t) && t != r
    ensures Legal(s, u, t)
  {
    assert RegistryOk(s) by { assert Open(STATIC); }
    ForgetKnown(s, r, i, u, t);
  }

  /** In every run a task that has ended stays ended until it is removed. */
  lemma {:induction false} EndIsFinal(states: seq<State>, ops: seq<Op>, t: nat, i: nat, j: nat)
    requires IsRun(states, ops) && Inv(states[0]) && i <= j <= |ops|
    requires Known(states[i], t) && states[i].tasks[t].state == Terminated
    requires forall m | i <= m < j && ops[m].Remove? :: ops[m].t != t
    ensures Known(states[j], t) && states[j].tasks[t].state == Terminated
    decreases j
  {
    if i < j {
      EndIsFinal(states, ops, t, i, j - 1);
      RunInv(states, ops, j - 1);
      StaysEnded(states[j - 1], ops[j - 1], states[j], t);
    }
  }

  lemma StaysEnded(s: State, op: Op, u: State, t: nat)
    requires Inv(s) && Leads(s, op, u) && Known(s, t) && s.tasks[t].state == Terminated && !(op.Remove? && op.t == t)
    ensures Known(u, t) && u.tasks[t].state == Terminated
  {
    LeadsFacts(s, op, u);
    LegalChanges(s, op, t);
  }

  // ---- the latest continuation ------------------------------------------------------------

  /** The continuation with which a step suspends task t, if it does. */
  ghost function Gives(s: State, op: Op, t: nat): Option<Cont> {
    match op
    case Yield(k) => if s.current == t then Some(k) else None
    case Tick(_, k) => if s.current == t && s.rq != [] then Some(k) else None
    case Block(_, k) => if s.current == t then Some(k) else None
    case Create(t', x, _) => if t' == t then Some(x.context) else None
    case _ => None
  }

  /** The most recent suspension of t in the first n steps of a run. */
  ghost function Latest(states: seq<State>, ops: seq<Op>, t: nat, n: nat): Option<Cont>
    requires IsRun(states, ops) && n <= |ops|
  {
    if n == 0 then None
    else if Gives(states[n - 1], ops[n - 1], t).Some? then Gives(states[n - 1], ops[n - 1], t)
    else Latest(states, ops, t, n - 1)
  }

  lemma SavedStep(s: State, op: Op, t: nat)
    requires Enabled(s, op)
    ensures Gives(s, op, t).Some? ==> t in Next(s, op).saved && Next(s, op).saved[t] == Gives(s, op, t).value
    ensures Gives(s, op, t).None? ==>
              (t in Next(s, op).saved <==> t in s.saved) && (t in s.saved ==> Next(s, op).saved[t] == s.saved[t])
  {
  }

  lemma {:induction false} SavedIsLatest(states: seq<State>, ops: seq<Op>, t: nat, n: nat)
    requires IsRun(states, ops) && states[0].saved == map[] && n <= |ops|
    ensures t in states[n].saved ==> Latest(states, ops, t, n) == Some(states[n].saved[t])
  {
    if n > 0 {
      SavedIsLatest(states, ops, t, n - 1);
      LeadsFacts(states[n - 1], ops[n - 1], states[n]);
      SavedStep(states[n - 1], ops[n - 1], t);
    }
  }

  /** In every run, whichever ready or blocked task is resumed next continues exactly where it last
      gave up the CPU (or, if it never ran, at its entry), and there always is such a continuation. */
  lemma ResumedFromLatest(states: seq<State>, ops: seq<Op>, start: nat, t: nat, n: nat)
    requires IsRun(states, ops) && states[0] == Boot(start) && n <= |ops|
    requires Known(states[n], t) && (states[n].tasks[t].state == Ready || states[n].tasks[t].state == Blocked)
    ensures Resolve(states[n].tasks[t], states[n].frames) == Latest(states, ops, t, n) != None
  {
    BootInv(start);
    RunInv(states, ops, n);
    assert Resumes(states[n], t);
    SavedIsLatest(states, ops, t, n);
  }

  // ---- bounded waiting --------------------------------------------------------------------

  predicate Handoff(s: State, op: Op) {
    op.Start? || op.Yield? || op.Block? || op.Exit? || (op.Tick? && s.rq != [])
  }

  function Handoffs(states: seq<State>, ops: seq<Op>): nat
    requires |states| == |ops| + 1
  {
    if ops == [] then 0
    else (if Handoff(states[0], ops[0]) then 1 else 0) + Handoffs(states[1..], ops[1..])
  }

  ghost predicate AtIndex(s: State, t: nat, k: nat) { k < |s.rq| && s.rq[k] == t }

  lemma {:induction false} WithoutIndex(q: seq<nat>, r: nat, t: nat, k: nat) returns (j: nat)
    requires k < |q| && q[k] == t && t != r
    ensures j <= k && j < |Without(q, r)| && Without(q, r)[j] == t
  {
    if q[0] == r {
      j := k - 1;
    } else if k == 0 {
      j := 0;
    } else {
      j := WithoutIndex(q[1..], r, t, k - 1);
      j := j + 1;
    }
  }

  /** One step: a handoff moves t one place forward, or onto the CPU; no other step moves it back. */
  lemma Advances(s: State, op: Op, t: nat, k: nat) returns (j: nat)
    requires Enabled(s, op) && AtIndex(s, t, k) && !(op.Remove? && op.t == t)
    ensures Handoff(s, op) && k == 0 ==> Next(s, op).current == t
    ensures !(Handoff(s, op) && k == 0) ==> AtIndex(Next(s, op), t, j) && j <= (if Handoff(s, op) then k - 1 else k)
  {
    j := if Handoff(s, op) && k > 0 then k - 1 else k;
    if op.Remove? {
      j := WithoutIndex(s.rq, op.t, t, k);
    }
  }

  /** A task at index k of the runqueue that is not destroyed is running at some point before the
      run has made k + 1 handoffs more. */
  lemma {:induction false} BoundedWaiting(states: seq<State>, ops: seq<Op>, t: nat, k: nat) returns (n: nat)
    requires IsRun(states, ops) && AtIndex(states[0], t, k)
    requires forall i | 0 <= i < |ops| && ops[i].Remove? :: ops[i].t != t
    requires Handoffs(states, ops) > k
    ensures n < |states| && states[n].current == t
    ensures Handoffs(states[..n + 1], ops[..n]) <= k + 1
    decreases |ops|
  {
    LeadsFacts(states[0], ops[0], states[1]);
    var j := Advances(states[0], ops[0], t, k);
    var h := Handoff(states[0], ops[0]);
    if h && k == 0 {
      n := 1;
      assert Handoffs(states[..2][1..], ops[..1][1..]) == 0;
    } else {
      assert IsRun(states[1..], ops[1..]) by {
        forall i | 0 <= i < |ops[1..]| ensures Leads(states[1..][i], ops[1..][i], states[1..][i + 1]) {
          assert Leads(states[i + 1], ops[i + 1], states[i + 2]);
        }
      }
      var m := BoundedWaiting(states[1..], ops[1..], t, j);
      n := m + 1;
      assert states[..n + 1][1..] == states[1..][..m + 1] && ops[..n][1..] == ops[1..][..m];
    }
  }

  // ---- creation and destruction -----------------------------------------------------------

  /** Destroying a task that was just created gives back every owner's state. */
  lemma CreateThenRemove(s: State, t: nat, x: Task, frames: map<nat, Cont>)
    requires Inv(s) && CanAdmit(s, t, x, frames)
    ensures
      var u := Admit(s, t, x, frames);
      var i := |s.procs[x.process].tasks|;
      && CanForget(u, t, i)
      && Forget(u, t, i) == s.(tasks := s.tasks[t := Dead(x)], frames := frames, saved := s.saved[t := x.context])
  {
    var u := Admit(s, t, x, frames);
    var i := |s.procs[x.process].tasks|;
    assert RegistryOk(s) by { assert Open(STATIC); }
    AdmitKnown(s, t, x, frames, u, t);
    AdmitQueue(s, t, x, frames, u, s.rq, Ready, 0);
    AdmitQueue(s, t, x, frames, u, s.pending, Terminated, 0);
    assert u.registry[x.id - 1 := 0] == s.registry;
    var p := s.procs[x.process];
    assert DetachAt(p.tasks + [t], i) == p.tasks;
    assert p.(tasks := p.tasks) == p;
    assert u.procs[x.process := p] == s.procs;
    WithoutLast(s.rq, t);
    assert u.tasks[t := Dead(x)] == s.tasks[t := Dead(x)];
  }
}
