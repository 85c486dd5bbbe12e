/** A fixed table of records with an append mark, searched linearly: the shape shared by the
    page-table registry and the address-space registry (kernel/mm/vmm/vmm.c). A released record
    stays where it is, marked unused, and is the first to be taken again. */
module Slots {
  import opened Guard

  const RECORDS: int := -12

  datatype Slot<V> = Slot(key: nat, value: V, used: bool)

  datatype SlotTable<V> = SlotTable(slots: seq<Slot<V>>, count: nat)

  /** The used records of t are exactly `content`, and `at` tells where each one is. */
  ghost predicate Holds<V>(t: SlotTable<V>, content: map<nat, V>, at: map<nat, nat>) {
    forall n {:trigger Open(n)} :: Open(n) && n == RECORDS ==> Recorded(t, content, at)
  }

  ghost predicate Recorded<V>(t: SlotTable<V>, content: map<nat, V>, at: map<nat, nat>) {
    && t.count <= |t.slots|
    && (forall k :: k in content <==> k in at)
    && (forall i | 0 <= i < |t.slots| && t.slots[i].used ::
          && i < t.count && t.slots[i].key in content
          && at[t.slots[i].key] == i && content[t.slots[i].key] == t.slots[i].value)
    && (forall k | k in content ::
          k != 0 && at[k] < t.count && t.slots[at[k]].used && t.slots[at[k]].key == k)
  }

  /** The keys whose record lies among the first n slots. */
  ghost function Below(at: map<nat, nat>, n: nat): set<nat> {
    set k | k in at && at[k] < n
  }

  lemma BelowStep<V>(t: SlotTable<V>, content: map<nat, V>, at: map<nat, nat>, n: nat)
    requires Holds(t, content, at) && n < |t.slots|
    ensures |Below(at, n + 1)| == if t.slots[n].used then |Below(at, n)| + 1 else |Below(at, n)|
  {
    assert Open(RECORDS);
    if t.slots[n].used {
      assert Below(at, n + 1) == Below(at, n) + {t.slots[n].key};
    } else {
      assert Below(at, n + 1) == Below(at, n);
    }
  }

  lemma {:induction false} BelowCount<V>(t: SlotTable<V>, content: map<nat, V>, at: map<nat, nat>, n: nat)
    requires Holds(t, content, at) && n <= |t.slots|
    ensures |Below(at, n)| <= n
    ensures |Below(at, n)| == n <==> forall i | 0 <= i < n :: t.slots[i].used
  {
    if n > 0 {
      BelowCount(t, content, at, n - 1);
      BelowStep(t, content, at, n - 1);
    } else {
      assert Below(at, 0) == {};
    }
  }

  /** There is room exactly while some record is unused. */
  lemma Room<V>(t: SlotTable<V>, content: map<nat, V>, at: map<nat, nat>)
    requires Holds(t, content, at)
    ensures |content| <= |t.slots|
    ensures |content| == |t.slots| <==> forall i | 0 <= i < |t.slots| :: t.slots[i].used
  {
    assert Open(RECORDS);
    BelowCount(t, content, at, |t.slots|);
    assert Below(at, |t.slots|) == content.Keys;
  }

  method Find<V>(t: SlotTable<V>, ghost content: map<nat, V>, ghost at: map<nat, nat>, key: nat) returns (index: int)
    requires Holds(t, content, at)
    ensures index >= 0 <==> key in content
    ensures index >= 0 ==> key in at && index == at[key] && index < |t.slots| && t.slots[index] == Slot(key, content[key], true)
  {
    assert Open(RECORDS);
    if key == 0 { return -1; }
    for i := 0 to t.count
      invariant forall j | 0 <= j < i :: !(t.slots[j].used && t.slots[j].key == key)
    {
      if t.slots[i].used && t.slots[i].key == key { return i; }
    }
    return -1;
  }

  /** Registers a key that is not registered yet, in the first unused record; the record's index
      is -1 when there is none. */
  method Insert<V>(t: SlotTable<V>, ghost content: map<nat, V>, ghost at: map<nat, nat>, key: nat, value: V)
    returns (t': SlotTable<V>, index: int)
    requires Holds(t, content, at) && key !in content
    ensures index >= 0 <==> key != 0 && |content| < |t.slots|
    ensures index >= 0 ==> Holds(t', content[key := value], at[key := index])
    ensures index < 0 ==> t' == t
    ensures |t'.slots| == |t.slots| && t.count <= t'.count
  {
    assert Open(RECORDS);
    if key == 0 { return t, -1; }
    Room(t, content, at);
    index := 0;
    while index < t.count && t.slots[index].used
      invariant 0 <= index <= t.count
      invariant forall j | 0 <= j < index :: t.slots[j].used
    {
      index := index + 1;
    }
    if index == t.count && t.count >= |t.slots| { return t, -1; }
    assert !t.slots[index].used;
    t' := SlotTable(t.slots[index := Slot(key, value, true)], if index == t.count then t.count + 1 else t.count);
  }

  method Remove<V>(t: SlotTable<V>, ghost content: map<nat, V>, ghost at: map<nat, nat>, key: nat)
    returns (t': SlotTable<V>, code: int)
    requires Holds(t, content, at)
    ensures code == if key in content then 0 else -1
    ensures Holds(t', content - {key}, at - {key}) && |t'.slots| == |t.slots| && t'.count == t.count
  {
    assert Open(RECORDS);
    var index := Find(t, content, at, key);
    if index < 0 {
      assert content - {key} == content && at - {key} == at;
      return t, -1;
    }
    return SlotTable(t.slots[index := t.slots[index].(used := false)], t.count), 0;
  }

  method Update<V>(t: SlotTable<V>, ghost content: map<nat, V>, ghost at: map<nat, nat>, key: nat, value: V)
    returns (t': SlotTable<V>)
    requires Holds(t, content, at) && key in content
    ensures Holds(t', content[key := value], at) && |t'.slots| == |t.slots|
  {
    assert Open(RECORDS);
    var index := Find(t, content, at, key);
    t' := SlotTable(t.slots[index := Slot(key, value, true)], t.count);
  }
}
