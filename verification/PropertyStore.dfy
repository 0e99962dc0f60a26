/**
 The DRM property helpers (msm_prop.c): property lookup from a remembered
 position, the dirty queue of a state, the two-slot pool of state objects, and
 the blob references shared by duplicated states.
 */
module PropertyStore {
  import opened Common

  const CACHE_SIZE := 2  // MSM_PROP_STATE_CACHE_SIZE
  const EINVAL := -22
  const EAGAIN := -11

  // ---------- Lookup ----------

  /** Downward steps, wrapping at zero, from one index to another. */
  function Steps(from: nat, to: nat, n: nat): int {
    if to <= from then from - to else from + n - to
  }

  function LinearFind(a: seq<nat>, p: nat): (i: nat)
    ensures i <= |a| && (i < |a| ==> a[i] == p) && p !in a[..i]
  {
    if a == [] || a[0] == p then 0 else
      var i := LinearFind(a[1..], p) + 1;
      assert forall k :: 0 < k < i ==> a[k] == a[1..][k - 1];
      i
  }

  /** The wrapping search of msm_property_index: of all matches it returns the
      one reached first going down from `recent`. */
  method FindFrom(a: seq<nat>, recent: nat, p: nat) returns (rc: int)
    requires a == [] || recent < |a|
    ensures rc == EINVAL || 0 <= rc < |a|
    ensures rc == EINVAL <==> p !in a
    ensures rc != EINVAL ==> a[rc] == p
    ensures rc != EINVAL ==> forall k :: 0 <= k < |a| && a[k] == p ==> Steps(recent, rc, |a|) <= Steps(recent, k, |a|)
    ensures Distinct(a) && p in a ==> rc == LinearFind(a, p)
  {
    rc := EINVAL;
    var idx: int, count := recent, |a|;
    while count > 0
      invariant 0 <= count <= |a| && (a == [] || 0 <= idx < |a|)
      invariant count > 0 ==> Steps(recent, idx, |a|) == |a| - count
      invariant forall k :: 0 <= k < |a| && Steps(recent, k, |a|) < |a| - count ==> a[k] != p
    {
      count := count - 1;
      if a[idx] == p {
        return idx;
      }
      idx := idx - 1;
      if idx < 0 { idx := |a| - 1; }
    }
    assert forall k :: 0 <= k < |a| ==> Steps(recent, k, |a|) < |a|;
  }

  // ---------- Dirty queue ----------

  function Push(queue: seq<nat>, i: nat): seq<nat> { if i in queue then queue else queue + [i] }

  function PushAll(queue: seq<nat>, xs: seq<nat>): seq<nat>
    decreases |xs|
  {
    if xs == [] then queue else PushAll(Push(queue, xs[0]), xs[1..])
  }

  function Members(queue: seq<nat>): set<nat> { set i | i in queue }

  /** The indices of `xs` that are not in `seen`, each at its first occurrence. */
  function FirstSeen(seen: set<nat>, xs: seq<nat>): seq<nat>
    decreases |xs|
  {
    if xs == [] then []
    else if xs[0] in seen then FirstSeen(seen, xs[1..])
    else [xs[0]] + FirstSeen(seen + {xs[0]}, xs[1..])
  }

  /** Dirtying any list of indices leaves what was queued, then every new index
      once, in the order of first dirtying; popping from the front therefore yields
      each dirtied index once, first dirtied first. */
  lemma {:induction false} DirtyQueueIsFifo(queue: seq<nat>, xs: seq<nat>)
    ensures PushAll(queue, xs) == queue + FirstSeen(Members(queue), xs)
    decreases |xs|
  {
    if xs != [] {
      var next := Push(queue, xs[0]);
      DirtyQueueIsFifo(next, xs[1..]);
      if xs[0] !in queue {
        assert Members(next) == Members(queue) + {xs[0]};
        var more := FirstSeen(Members(next), xs[1..]);
        assert next + more == queue + ([xs[0]] + more);
      }
    }
  }

  /** The queue stays duplicate-free and holds exactly the dirty indices. */
  lemma {:induction false} DirtyQueueIsSet(queue: seq<nat>, xs: seq<nat>)
    requires Distinct(queue)
    ensures Distinct(PushAll(queue, xs))
    ensures forall i :: i in PushAll(queue, xs) <==> i in queue || i in xs
    decreases |xs|
  {
    if xs != [] {
      assert forall i :: i in xs <==> i == xs[0] || i in xs[1..] by { assert xs == [xs[0]] + xs[1..]; }
      DirtyQueueIsSet(Push(queue, xs[0]), xs[1..]);
    }
  }

  datatype QueueOp = Dirty(i: nat) | Pop

  /** popped: what pops returned; entered: the indices dirtied while clean. */
  datatype Play = Play(popped: seq<nat>, queue: seq<nat>, entered: seq<nat>)

  function PlayOne(p: Play, op: QueueOp): Play {
    match op
    case Dirty(i) => p.(queue := Push(p.queue, i), entered := if i in p.queue then p.entered else p.entered + [i])
    case Pop => if p.queue == [] then p else p.(popped := p.popped + [p.queue[0]], queue := p.queue[1..])
  }

  function PlayAll(p: Play, ops: seq<QueueOp>): Play {
    if ops == [] then p else PlayOne(PlayAll(p, ops[..|ops| - 1]), ops[|ops| - 1])
  }

  /** Any mix of dirtying and popping: the queue has no duplicate, and what was
      popped followed by what is queued is what entered, in the order it entered. */
  lemma {:induction false} PlayIsFifo(ops: seq<QueueOp>)
    ensures var p := PlayAll(Play([], [], []), ops); Distinct(p.queue) && p.popped + p.queue == p.entered
  {
    if ops != [] {
      PlayIsFifo(ops[..|ops| - 1]);
      PlayOneIsFifo(PlayAll(Play([], [], []), ops[..|ops| - 1]), ops[|ops| - 1]);
    }
  }

  lemma PlayOneIsFifo(p: Play, op: QueueOp)
    requires Distinct(p.queue) && p.popped + p.queue == p.entered
    ensures var q := PlayOne(p, op); Distinct(q.queue) && q.popped + q.queue == q.entered
  {
    match op
    case Dirty(i) => assert p.popped + (p.queue + [i]) == p.popped + p.queue + [i];
    case Pop => assert p.queue != [] ==> p.popped + [p.queue[0]] + p.queue[1..] == p.popped + p.queue;
  }

  // ---------- Blob references ----------

  /** linked: the value's dirty node is on a list, which is what is_dirty looks at. */
  datatype Value = Value(value: nat, blob: Option<nat>, linked: bool)
  datatype State = State(values: seq<Value>, dirty: seq<nat>)

  /** live: initialised state objects; raw: handed out by alloc, not initialised
      yet; refs: references the driver holds on each blob. */
  datatype Store = Store(live: map<nat, State>, raw: set<nat>, cache: seq<nat>, refs: map<nat, int>)

  function Refs(refs: map<nat, int>, b: nat): int { if b in refs then refs[b] else 0 }

  function Adjust(refs: map<nat, int>, blob: Option<nat>, d: int): map<nat, int> {
    match blob
    case None => refs
    case Some(b) => refs[b := Refs(refs, b) + d]
  }

  function AdjustAll(refs: map<nat, int>, vs: seq<Value>, d: int): map<nat, int> {
    if vs == [] then refs
    else Adjust(AdjustAll(refs, vs[..|vs| - 1], d), vs[|vs| - 1].blob, d)
  }

  function Count(vs: seq<Value>, b: nat): nat {
    if vs == [] then 0 else Count(vs[..|vs| - 1], b) + if vs[|vs| - 1].blob == Some(b) then 1 else 0
  }

  /** The live slots that point at a blob. */
  ghost function Slots(live: map<nat, State>, b: nat): set<(nat, nat)> {
    set id, i | id in live && 0 <= i < |live[id].values| && live[id].values[i].blob == Some(b) :: (id, i)
  }

  ghost predicate Conserved(s: Store) {
    forall b :: Refs(s.refs, b) == |Slots(s.live, b)|
  }

  ghost predicate PoolOk(s: Store) {
    && |s.cache| <= CACHE_SIZE && Distinct(s.cache)
    && s.raw !! s.live.Keys
    && (forall id :: id in s.cache ==> id !in s.live && id !in s.raw)
  }

  // ---------- Operations ----------

  /** addr is the address kmalloc would return, None if it fails. */
  function Alloc(s: Store, addr: Option<nat>): (Store, Option<nat>) {
    if s.cache != [] then
      var id := s.cache[|s.cache| - 1];
      (s.(cache := s.cache[..|s.cache| - 1], raw := s.raw + {id}), Some(id))
    else match addr
      case None => (s, None)
      case Some(id) => (s.(raw := s.raw + {id}), Some(id))
  }

  function Defaults(defaults: seq<nat>): State {
    State(seq(|defaults|, i requires 0 <= i < |defaults| => Value(defaults[i], None, false)), [])
  }

  function Unlinked(vs: seq<Value>): seq<Value> {
    seq(|vs|, i requires 0 <= i < |vs| => vs[i].(linked := false))
  }

  /** A property whose node is not linked yet goes to the end of the dirty list. */
  function Mark(st: State, i: nat): State
    requires i < |st.values|
  {
    if st.values[i].linked then st
    else State(st.values[i := st.values[i].(linked := true)], st.dirty + [i])
  }

  function PopFirst(st: State): State {
    if st.dirty == [] || st.dirty[0] >= |st.values| then st
    else State(st.values[st.dirty[0] := st.values[st.dirty[0]].(linked := false)], st.dirty[1..])
  }

  function Reset(s: Store, id: nat, defaults: seq<nat>): Store {
    s.(live := s.live[id := Defaults(defaults)], raw := s.raw - {id})
  }

  function Duplicate(s: Store, src: nat, dst: nat): Store
    requires src in s.live
  {
    s.(live := s.live[dst := State(Unlinked(s.live[src].values), [])], raw := s.raw - {dst},
       refs := AdjustAll(s.refs, s.live[src].values, 1))
  }

  /** atomic_set on slot i. found is what drm_property_lookup_blob returns. */
  function SetBlob(s: Store, id: nat, i: nat, val: nat, found: Option<nat>, force: bool): Store
    requires id in s.live && i < |s.live[id].values|
  {
    var was := s.live[id].values[i];
    var refs := Adjust(Adjust(s.refs, was.blob, -1), found, 1);
    var v := if val != 0 && found.None? then was.(value := 0)
             else was.(value := if found.Some? then found.value else val, blob := found);
    Store(s.live[id := Write(s.live[id], i, v, force)], s.raw, s.cache, refs)
  }

  function SetPlain(s: Store, id: nat, i: nat, val: nat, force: bool): Store
    requires id in s.live && i < |s.live[id].values|
  {
    s.(live := s.live[id := Write(s.live[id], i, s.live[id].values[i].(value := val), force)])
  }

  /** A changed or volatile property is stored and queued as dirty. */
  function Write(st: State, i: nat, v: Value, force: bool): State
    requires i < |st.values|
  {
    var st' := st.(values := st.values[i := v]);
    if st.values[i].value != v.value || force then Mark(st', i) else st'
  }

  function Dirtied(s: Store, id: nat, i: nat): Store
    requires id in s.live
  {
    if i < |s.live[id].values| then s.(live := s.live[id := Mark(s.live[id], i)]) else s
  }

  function Popped(s: Store, id: nat): Store
    requires id in s.live
  {
    s.(live := s.live[id := PopFirst(s.live[id])])
  }

  function Destroy(s: Store, id: nat): Store
    requires id in s.live
  {
    Store(s.live - {id}, s.raw,
          if |s.cache| < CACHE_SIZE then s.cache + [id] else s.cache,
          AdjustAll(s.refs, s.live[id].values, -1))
  }

  // ---------- Counting ----------

  lemma {:induction false} AdjustAllRefs(refs: map<nat, int>, vs: seq<Value>, d: int, b: nat)
    requires d == 1 || d == -1
    ensures Refs(AdjustAll(refs, vs, d), b) == Refs(refs, b) + d * Count(vs, b)
  {
    if vs != [] {
      AdjustAllRefs(refs, vs[..|vs| - 1], d, b);
    }
  }

  lemma {:induction false} CountUpdate(vs: seq<Value>, i: nat, v: Value, b: nat)
    requires i < |vs|
    ensures Count(vs[i := v], b) ==
            Count(vs, b) - (if vs[i].blob == Some(b) then 1 else 0) + if v.blob == Some(b) then 1 else 0
  {
    var n := |vs| - 1;
    assert vs[i := v][..n] == if i == n then vs[..n] else vs[..n][i := v];
    if i < n { CountUpdate(vs[..n], i, v, b); }
  }

  lemma {:induction false} CountNone(vs: seq<Value>, b: nat)
    ensures Count(vs, b) == 0 <==> forall i :: 0 <= i < |vs| ==> vs[i].blob != Some(b)
  {
    if vs != [] {
      CountNone(vs[..|vs| - 1], b);
      assert forall i :: 0 <= i < |vs| - 1 ==> vs[..|vs| - 1][i] == vs[i];
    }
  }

  ghost function Own(id: nat, vs: seq<Value>, b: nat): set<(nat, nat)> {
    set i | 0 <= i < |vs| && vs[i].blob == Some(b) :: (id, i)
  }

  lemma {:induction false} OwnCount(id: nat, vs: seq<Value>, b: nat)
    ensures |Own(id, vs, b)| == Count(vs, b)
  {
    if vs == [] {
      assert Own(id, vs, b) == {};
    } else {
      var n := |vs| - 1;
      OwnCount(id, vs[..n], b);
      var rest := Own(id, vs[..n], b);
      assert forall i :: 0 <= i < n ==> vs[..n][i] == vs[i];
      assert (id, n) !in rest;
      assert Own(id, vs, b) == if vs[n].blob == Some(b) then rest + {(id, n)} else rest;
    }
  }

  /** The slots of a map with one state written: the others' and its own. */
  lemma SlotsPut(live: map<nat, State>, id: nat, st: State, b: nat)
    ensures |Slots(live[id := st], b)| == |Slots(live - {id}, b)| + Count(st.values, b)
  {
    var own, rest := Own(id, st.values, b), Slots(live - {id}, b);
    OwnCount(id, st.values, b);
    forall p ensures p in Slots(live[id := st], b) <==> p in rest || p in own {
      if p in rest { assert p.0 != id && live[id := st][p.0] == live[p.0]; }
      if p in own { assert p.0 == id && live[id := st][p.0] == st; }
    }
    assert own !! rest;
    assert Slots(live[id := st], b) == rest + own;
  }

  lemma SlotsOf(live: map<nat, State>, id: nat, b: nat)
    requires id in live
    ensures |Slots(live, b)| == |Slots(live - {id}, b)| + Count(live[id].values, b)
  {
    SlotsPut(live, id, live[id], b);
    assert live[id := live[id]] == live;
  }

  // ---------- Conservation, one call at a time ----------

  lemma {:induction false} CountUnlinked(vs: seq<Value>, b: nat)
    ensures Count(Unlinked(vs), b) == Count(vs, b)
  {
    if vs != [] {
      var n := |vs| - 1;
      CountUnlinked(vs[..n], b);
      assert Unlinked(vs)[..n] == Unlinked(vs[..n]);
    }
  }

  lemma DuplicateConserves(s: Store, src: nat, dst: nat)
    requires Conserved(s) && src in s.live && dst !in s.live
    ensures Conserved(Duplicate(s, src, dst))
  {
    forall b ensures Refs(Duplicate(s, src, dst).refs, b) == |Slots(Duplicate(s, src, dst).live, b)| {
      AdjustAllRefs(s.refs, s.live[src].values, 1, b);
      SlotsPut(s.live, dst, State(Unlinked(s.live[src].values), []), b);
      CountUnlinked(s.live[src].values, b);
      assert s.live - {dst} == s.live;
    }
  }

  lemma DestroyConserves(s: Store, id: nat)
    requires Conserved(s) && id in s.live
    ensures Conserved(Destroy(s, id))
  {
    forall b ensures Refs(Destroy(s, id).refs, b) == |Slots(Destroy(s, id).live, b)| {
      AdjustAllRefs(s.refs, s.live[id].values, -1, b);
      SlotsOf(s.live, id, b);
    }
  }

  ghost predicate HoldsBlob(st: State) {
    exists i :: 0 <= i < |st.values| && st.values[i].blob.Some?
  }

  /** reset overwrites the blob pointers without dropping them, so it conserves
      exactly when the state is not live yet or holds no blob. */
  lemma ResetConservesIff(s: Store, id: nat, defaults: seq<nat>)
    requires Conserved(s)
    ensures Conserved(Reset(s, id, defaults)) <==> id !in s.live || !HoldsBlob(s.live[id])
  {
    var s' := Reset(s, id, defaults);
    forall b ensures |Slots(s'.live, b)| == |Slots(s.live - {id}, b)| {
      SlotsPut(s.live, id, Defaults(defaults), b);
      CountNone(Defaults(defaults).values, b);
    }
    if id !in s.live {
      assert s.live - {id} == s.live;
    } else {
      forall b ensures |Slots(s.live, b)| == |Slots(s.live - {id}, b)| + Count(s.live[id].values, b) {
        SlotsOf(s.live, id, b);
      }
      if HoldsBlob(s.live[id]) {
        var i :| 0 <= i < |s.live[id].values| && s.live[id].values[i].blob.Some?;
        var b := s.live[id].values[i].blob.value;
        CountNone(s.live[id].values, b);
        assert Refs(s'.refs, b) != |Slots(s'.live, b)|;
      } else {
        forall b ensures Count(s.live[id].values, b) == 0 { CountNone(s.live[id].values, b); }
      }
    }
  }

  /** Setting a blob property conserves exactly when the id is found, or is zero,
      or the slot held nothing: a lookup failure drops the old reference but keeps
      the old pointer. */
  lemma SetBlobConservesIff(s: Store, id: nat, i: nat, val: nat, found: Option<nat>, force: bool)
    requires Conserved(s) && id in s.live && i < |s.live[id].values|
    ensures Conserved(SetBlob(s, id, i, val, found, force)) <==>
            found.Some? || val == 0 || s.live[id].values[i].blob.None?
  {
    var s', vs := SetBlob(s, id, i, val, found, force), s.live[id].values;
    var was, now := vs[i].blob, s'.live[id].values[i].blob;
    assert s'.live[id].values == vs[i := s'.live[id].values[i]];
    forall b: nat ensures Refs(s'.refs, b) - |Slots(s'.live, b)| ==
                     (if found == Some(b) then 1 else 0) - (if now == Some(b) then 1 else 0) {
      SlotsOf(s.live, id, b);
      SlotsPut(s.live, id, s'.live[id], b);
      CountUpdate(vs, i, s'.live[id].values[i], b);
    }
    if now != found {
      assert Refs(s'.refs, was.value) != |Slots(s'.live, was.value)|;
    }
  }

  /** The smallest failing input: one slot holding blob 7, set to an unknown id. */
  lemma LookupFailureBreaksConservation(s: Store)
    requires s == Store(map[0 := State([Value(7, Some(7), false)], [])], {}, [], map[7 := 1])
    ensures Conserved(s) && !Conserved(SetBlob(s, 0, 0, 9, None, true))
  {
    forall b: nat ensures Refs(s.refs, b) == |Slots(s.live, b)| {
      assert s.live[0].values[..0] == [];
      SlotsOf(s.live, 0, b);
      assert Slots(s.live - {0}, b) == {};
    }
    SetBlobConservesIff(s, 0, 0, 9, None, true);
  }

  lemma SetPlainConserves(s: Store, id: nat, i: nat, val: nat, force: bool)
    requires Conserved(s) && id in s.live && i < |s.live[id].values|
    ensures Conserved(SetPlain(s, id, i, val, force))
  {
    var s' := SetPlain(s, id, i, val, force);
    forall b ensures |Slots(s'.live, b)| == |Slots(s.live, b)| {
      assert Slots(s'.live, b) == Slots(s.live, b);
    }
  }

  lemma DirtyConserves(s: Store, id: nat, st: State)
    requires Conserved(s) && id in s.live && |st.values| == |s.live[id].values|
    requires forall i :: 0 <= i < |st.values| ==> st.values[i].blob == s.live[id].values[i].blob
    ensures Conserved(s.(live := s.live[id := st]))
  {
    var s' := s.(live := s.live[id := st]);
    forall b ensures |Slots(s'.live, b)| == |Slots(s.live, b)| {
      assert Slots(s'.live, b) == Slots(s.live, b);
    }
  }

  // ---------- The dirty list of a state ----------

  /** The dirty list has no duplicate and holds exactly the linked properties. */
  ghost predicate DirtyOk(st: State) {
    && Distinct(st.dirty) && (forall k :: 0 <= k < |st.dirty| ==> st.dirty[k] < |st.values|)
    && (forall i :: 0 <= i < |st.values| ==> (st.values[i].linked <==> i in st.dirty))
  }

  /** Marking appends a clean index and leaves a dirty one; popping takes the first. */
  lemma MarkIsPush(st: State, i: nat)
    requires DirtyOk(st) && i < |st.values|
    ensures DirtyOk(Mark(st, i)) && Mark(st, i).dirty == Push(st.dirty, i)
  {
  }

  lemma PopIsTail(st: State)
    requires DirtyOk(st)
    ensures DirtyOk(PopFirst(st)) && PopFirst(st).dirty == if st.dirty == [] then [] else st.dirty[1..]
  {
    if st.dirty != [] { TailMembers(st.dirty); }
  }

  lemma TailMembers(q: seq<nat>)
    requires q != [] && Distinct(q)
    ensures Distinct(q[1..]) && forall i :: i in q[1..] <==> i in q && i != q[0]
  {
    var d := q[1..];
    assert forall k :: 0 <= k < |d| ==> d[k] == q[k + 1];
    assert q == [q[0]] + d;
  }

  lemma WriteDirtyOk(st: State, i: nat, v: Value, force: bool)
    requires DirtyOk(st) && i < |st.values| && v.linked == st.values[i].linked
    ensures DirtyOk(Write(st, i, v, force))
  {
    var st' := st.(values := st.values[i := v]);
    assert DirtyOk(st');
    MarkIsPush(st', i);
  }

  // ---------- What each call does to the states ----------

  /** Only state id differs, and only in slot i and the dirty list. */
  ghost predicate OnlySlot(s: Store, s': Store, id: nat, i: nat)
    requires id in s.live && i < |s.live[id].values|
  {
    && id in s'.live && s'.live - {id} == s.live - {id} && s'.raw == s.raw && s'.cache == s.cache
    && |s'.live[id].values| == |s.live[id].values|
    && (forall k :: 0 <= k < |s.live[id].values| && k != i ==> s'.live[id].values[k] == s.live[id].values[k])
  }

  /** A plain set: the slot holds the value, and the property is dirty exactly if it
      was, or the value changed, or it is volatile. */
  lemma SetPlainExact(s: Store, id: nat, i: nat, val: nat, force: bool)
    requires id in s.live && i < |s.live[id].values| && DirtyOk(s.live[id])
    ensures var s' := SetPlain(s, id, i, val, force); var was, now := s.live[id], s'.live[id];
            && OnlySlot(s, s', id, i) && s'.refs == s.refs
            && now.values[i].value == val && now.values[i].blob == was.values[i].blob
            && now.dirty == (if val != was.values[i].value || force then Push(was.dirty, i) else was.dirty)
  {
    var st := s.live[id];
    MarkIsPush(st.(values := st.values[i := st.values[i].(value := val)]), i);
  }

  /** A blob set: the slot holds the found blob and its id, or 0 when none was found;
      the old pointer stays when a nonzero id was not found. */
  lemma SetBlobExact(s: Store, id: nat, i: nat, val: nat, found: Option<nat>, force: bool)
    requires id in s.live && i < |s.live[id].values| && DirtyOk(s.live[id])
    ensures var s' := SetBlob(s, id, i, val, found, force); var was, now := s.live[id], s'.live[id];
            var value := if found.Some? then found.value else 0;
            && OnlySlot(s, s', id, i)
            && now.values[i].value == value
            && now.values[i].blob == (if found.None? && val != 0 then was.values[i].blob else found)
            && now.dirty == (if value != was.values[i].value || force then Push(was.dirty, i) else was.dirty)
            && forall b: nat :: Refs(s'.refs, b) == Refs(s.refs, b) - (if was.values[i].blob == Some(b) then 1 else 0)
                                               + if found == Some(b) then 1 else 0
  {
    var st, value := s.live[id], if found.Some? then found.value else 0;
    var blob := if found.None? && val != 0 then st.values[i].blob else found;
    MarkIsPush(st.(values := st.values[i := st.values[i].(value := value, blob := blob)]), i);
  }

  /** Dirtying and popping touch links and the list, never values or blobs. */
  lemma DirtyKeepsValues(s: Store, id: nat, i: nat)
    requires id in s.live && DirtyOk(s.live[id])
    ensures var d, p := Dirtied(s, id, i), Popped(s, id);
            && d.live - {id} == p.live - {id} == s.live - {id} && d.refs == p.refs == s.refs
            && d.raw == p.raw == s.raw && d.cache == p.cache == s.cache
            && |d.live[id].values| == |p.live[id].values| == |s.live[id].values|
            && forall k :: 0 <= k < |s.live[id].values| ==>
                 var v := s.live[id].values[k];
                 d.live[id].values[k].(linked := v.linked) == p.live[id].values[k].(linked := v.linked) == v
  {
  }

  /** A reset state has every default and no blob, and is clean. */
  lemma ResetExact(s: Store, id: nat, defaults: seq<nat>)
    ensures var s' := Reset(s, id, defaults);
            && id in s'.live && s'.live - {id} == s.live - {id} && s'.raw == s.raw - {id}
            && s'.cache == s.cache && s'.refs == s.refs
            && s'.live[id].dirty == [] && |s'.live[id].values| == |defaults|
            && forall i :: 0 <= i < |defaults| ==> s'.live[id].values[i] == Value(defaults[i], None, false)
  {
  }

  /** A duplicate has the values and blobs of its source, and is clean whatever the
      source is; the source keeps its dirty list. */
  lemma DuplicateExact(s: Store, src: nat, dst: nat)
    requires src in s.live
    ensures var s' := Duplicate(s, src, dst);
            && dst in s'.live && s'.live - {dst} == s.live - {dst} && s'.raw == s.raw - {dst} && s'.cache == s.cache
            && s'.live[dst].dirty == [] && |s'.live[dst].values| == |s.live[src].values|
            && forall i :: 0 <= i < |s.live[src].values| ==>
                 s'.live[dst].values[i] == Value(s.live[src].values[i].value, s.live[src].values[i].blob, false)
  {
  }

  /** A destroyed state goes to the pool while that has fewer than two. */
  lemma DestroyExact(s: Store, id: nat)
    requires id in s.live
    ensures var s' := Destroy(s, id);
            && s'.live == s.live - {id} && s'.raw == s.raw
            && s'.cache == if |s.cache| < 2 then s.cache + [id] else s.cache
  {
  }

  /** The pool is asked first, and hands out the state that came last. */
  lemma AllocExact(s: Store, addr: Option<nat>)
    ensures var (s', got) := Alloc(s, addr);
            && s'.live == s.live && s'.refs == s.refs
            && s'.raw == (s.raw + if got.Some? then {got.value} else {})
            && (if s.cache == [] then got == addr && s'.cache == []
                else got.Some? && s.cache == s'.cache + [got.value])
  {
  }

  // ---------- Whole runs ----------

  datatype Op =
    | OAlloc(addr: Option<nat>)
    | OReset(id: nat, defaults: seq<nat>)
    | ODuplicate(src: nat, dst: nat)
    | OSetBlob(id: nat, i: nat, val: nat, found: Option<nat>, force: bool)
    | OSetPlain(id: nat, i: nat, val: nat, force: bool)
    | OSetDirty(id: nat, i: nat)
    | OPopDirty(id: nat)
    | ODestroy(id: nat)

  /** How the callers use the helpers: kmalloc returns unused memory, only freshly
      allocated states are reset or duplicated into, blob ids are found. */
  ghost predicate OpOk(s: Store, op: Op) {
    match op
    case OAlloc(addr) => addr.Some? ==> addr.value !in s.live && addr.value !in s.raw && addr.value !in s.cache
    case OReset(id, _) => id in s.raw
    case ODuplicate(src, dst) => src in s.live && dst in s.raw
    case OSetBlob(id, i, val, found, _) =>
      id in s.live && i < |s.live[id].values| && (found.Some? || val == 0 || s.live[id].values[i].blob.None?)
    case OSetPlain(id, i, _, _) => id in s.live && i < |s.live[id].values|
    case OSetDirty(id, _) => id in s.live
    case OPopDirty(id) => id in s.live
    case ODestroy(id) => id in s.live
  }

  function Do(s: Store, op: Op): Store
    requires OpOk(s, op)
  {
    match op
    case OAlloc(addr) => Alloc(s, addr).0
    case OReset(id, d) => Reset(s, id, d)
    case ODuplicate(src, dst) => Duplicate(s, src, dst)
    case OSetBlob(id, i, val, found, f) => SetBlob(s, id, i, val, found, f)
    case OSetPlain(id, i, val, f) => SetPlain(s, id, i, val, f)
    case OSetDirty(id, i) => Dirtied(s, id, i)
    case OPopDirty(id) => Popped(s, id)
    case ODestroy(id) => Destroy(s, id)
  }

  ghost predicate RunOk(s: Store, ops: seq<Op>)
    decreases |ops|
  {
    ops == [] || (OpOk(s, ops[0]) && RunOk(Do(s, ops[0]), ops[1..]))
  }

  ghost function Run(s: Store, ops: seq<Op>): Store
    requires RunOk(s, ops)
    decreases |ops|
  {
    if ops == [] then s else Run(Do(s, ops[0]), ops[1..])
  }

  lemma DoConserves(s: Store, op: Op)
    requires Conserved(s) && PoolOk(s) && OpOk(s, op)
    ensures Conserved(Do(s, op)) && PoolOk(Do(s, op))
  {
    match op
    case OAlloc(addr) =>
    case OReset(id, d) => ResetConservesIff(s, id, d);
    case ODuplicate(src, dst) => DuplicateConserves(s, src, dst);
    case OSetBlob(id, i, val, found, f) => SetBlobConservesIff(s, id, i, val, found, f);
    case OSetPlain(id, i, val, f) => SetPlainConserves(s, id, i, val, f);
    case OSetDirty(id, i) => if i < |s.live[id].values| { DirtyConserves(s, id, Mark(s.live[id], i)); }
    case OPopDirty(id) => DirtyConserves(s, id, PopFirst(s.live[id]));
    case ODestroy(id) => DestroyConserves(s, id);
  }

  ghost predicate AllDirtyOk(s: Store) { forall id :: id in s.live ==> DirtyOk(s.live[id]) }

  lemma DoDirtyOk(s: Store, op: Op)
    requires AllDirtyOk(s) && OpOk(s, op)
    ensures AllDirtyOk(Do(s, op))
  {
    match op
    case OSetBlob(id, i, val, found, f) =>
      var was := s.live[id].values[i];
      var v := if val != 0 && found.None? then was.(value := 0)
               else was.(value := if found.Some? then found.value else val, blob := found);
      WriteDirtyOk(s.live[id], i, v, f);
    case OSetPlain(id, i, val, f) => WriteDirtyOk(s.live[id], i, s.live[id].values[i].(value := val), f);
    case OSetDirty(id, i) => if i < |s.live[id].values| { MarkIsPush(s.live[id], i); }
    case OPopDirty(id) => PopIsTail(s.live[id]);
    case _ =>
  }

  /** Over every run, in every live state: is_dirty holds of exactly the queued
      properties, and none is queued twice. */
  lemma {:induction false} RunDirtyOk(s: Store, ops: seq<Op>)
    requires AllDirtyOk(s) && RunOk(s, ops)
    ensures AllDirtyOk(Run(s, ops))
    decreases |ops|
  {
    if ops != [] {
      DoDirtyOk(s, ops[0]);
      RunDirtyOk(Do(s, ops[0]), ops[1..]);
    }
  }

  /** Over every run the references held on each blob are the live slots pointing
      at it, and the pool, the live and the raw states never mix. */
  lemma {:induction false} RunConserves(s: Store, ops: seq<Op>)
    requires Conserved(s) && PoolOk(s) && RunOk(s, ops)
    ensures Conserved(Run(s, ops)) && PoolOk(Run(s, ops))
    decreases |ops|
  {
    if ops != [] {
      DoConserves(s, ops[0]);
      RunConserves(Do(s, ops[0]), ops[1..]);
    }
  }

  /** After any run from the empty store, alloc hands out a state that nobody
      holds and that leaves the pool. */
  lemma AllocNeverHandsOutLive(ops: seq<Op>, addr: Option<nat>)
    requires RunOk(Store(map[], {}, [], map[]), ops)
    requires OpOk(Run(Store(map[], {}, [], map[]), ops), OAlloc(addr))
    ensures var s := Run(Store(map[], {}, [], map[]), ops);
            var (s', id) := Alloc(s, addr);
            id.Some? ==> id.value !in s.live && id.value !in s.raw && id.value !in s'.cache
  {
    var s0 := Store(map[], {}, [], map[]);
    assert Conserved(s0) by {
      forall b ensures |Slots(s0.live, b)| == 0 { assert Slots(s0.live, b) == {}; }
    }
    RunConserves(s0, ops);
  }

  // ---------- The imperative code ----------

  class PropertyInfo {
    const props: seq<nat>       // property_array
    const defaults: seq<nat>    // property_data[].default_value
    const force: seq<bool>      // property_data[].force_dirty
    const blobCount: nat
    var recent: nat             // recent_idx
    var live: map<nat, State>
    ghost var raw: set<nat>
    var cache: seq<nat>
    var refs: map<nat, int>

    ghost function Now(): Store reads this { Store(live, raw, cache, refs) }

    ghost predicate Valid() reads this {
      && |defaults| == |props| && |force| == |props|
      && (props == [] || recent < |props|)
      && (forall id :: id in live ==> |live[id].values| == |props| && DirtyOk(live[id]))
    }

    constructor (props: seq<nat>, defaults: seq<nat>, force: seq<bool>, blobCount: nat)
      requires |defaults| == |props| == |force|
      ensures Valid() && recent == 0 && Now() == Store(map[], {}, [], map[])
      ensures this.props == props && this.defaults == defaults && this.force == force
      ensures this.blobCount == if blobCount > |props| then |props| else blobCount
    {
      this.props, this.defaults, this.force := props, defaults, force;
      this.blobCount := if blobCount > |props| then |props| else blobCount;
      recent, live, raw, cache, refs := 0, map[], {}, [], map[];
    }

    /** Zero stands for the NULL property. */
    method Index(p: nat) returns (rc: int)
      requires Valid()
      modifies `recent
      ensures Valid()
      ensures p == 0 || p !in props ==> rc == EINVAL && recent == old(recent)
      ensures p != 0 && p in props ==> 0 <= rc < |props| && props[rc] == p && recent == rc
      ensures p != 0 && p in props && Distinct(props) ==> rc == LinearFind(props, p)
    {
      rc := EINVAL;
      if p == 0 { return; }
      rc := FindFrom(props, recent, p);
      if rc != EINVAL { recent := rc; }
    }

    /** msm_property_is_dirty: the node's link agrees with the dirty list. */
    method IsDirty(id: nat, i: nat) returns (r: bool)
      requires Valid() && id in live
      ensures r <==> i in live[id].dirty
    {
      if i >= |props| { return false; }
      r := live[id].values[i].linked;
    }

    method SetDirty(id: nat, i: nat)
      requires Valid() && id in live
      modifies `live
      ensures Valid() && Now() == Dirtied(old(Now()), id, i)
      ensures live[id].dirty == if i < |props| then Push(old(live)[id].dirty, i) else old(live)[id].dirty
    {
      if i >= |props| { return; }
      var st := live[id];
      MarkIsPush(st, i);
      if st.values[i].linked { return; }
      live := live[id := State(st.values[i := st.values[i].(linked := true)], st.dirty + [i])];
    }

    method PopDirty(id: nat) returns (rc: int)
      requires Valid() && id in live
      modifies `live
      ensures Valid() && Now() == old(Popped(Now(), id))
      ensures old(live)[id].dirty == [] ==> rc == EAGAIN && live == old(live)
      ensures old(live)[id].dirty != [] ==>
                rc == old(live)[id].dirty[0] && live[id].dirty == old(live)[id].dirty[1..]
    {
      var st := live[id];
      PopIsTail(st);
      if st.dirty == [] { return EAGAIN; }
      rc := st.dirty[0];
      live := live[id := State(st.values[rc := st.values[rc].(linked := false)], st.dirty[1..])];
    }

    method AtomicSet(id: nat, p: nat, isBlob: bool, val: nat, found: Option<nat>) returns (rc: int)
      requires Valid() && id in live
      modifies this
      ensures Valid()
      ensures p == 0 || p !in props ==> rc == EINVAL && Now() == old(Now())
      ensures p != 0 && p in props ==>
                && rc == 0 && recent < |props| && props[recent] == p
                && Now() == if isBlob && recent < blobCount
                            then SetBlob(old(Now()), id, recent, val, found, force[recent])
                            else SetPlain(old(Now()), id, recent, val, force[recent])
      ensures p != 0 && p in props ==>
                var value := if !(isBlob && recent < blobCount) then val else if found.Some? then found.value else 0;
                var was, now := old(live)[id], live[id];
                && now.values[recent].value == value
                && now.dirty == if value != was.values[recent].value || force[recent] then Push(was.dirty, recent)
                                else was.dirty
    {
      var i := Index(p);
      if i == EINVAL { return EINVAL; }
      SetAt(id, i, isBlob && i < blobCount, val, found);
      rc := 0;
    }

    method SetAt(id: nat, i: nat, isBlob: bool, val: nat, found: Option<nat>)
      requires Valid() && id in live && i < |props|
      modifies `live, `refs
      ensures Valid()
      ensures Now() == if isBlob then SetBlob(old(Now()), id, i, val, found, force[i])
                       else SetPlain(old(Now()), id, i, val, force[i])
      ensures var value := if !isBlob then val else if found.Some? then found.value else 0;
              var was, now := old(live)[id], live[id];
              && now.values[i].value == value
              && now.dirty == if value != was.values[i].value || force[i] then Push(was.dirty, i) else was.dirty
    {
      if isBlob {
        SetBlobExact(Now(), id, i, val, found, force[i]);
        var slot := SwapBlob(live[id].values[i], val, found);
        StoreValue(id, i, slot);
      } else {
        SetPlainExact(Now(), id, i, val, force[i]);
        StoreValue(id, i, live[id].values[i].(value := val));
      }
    }

    /** Drops the old reference; the lookup takes one on the new blob, if it finds it. */
    method SwapBlob(was: Value, val: nat, found: Option<nat>) returns (slot: Value)
      modifies `refs
      ensures refs == Adjust(Adjust(old(refs), was.blob, -1), found, 1)
      ensures slot == if val != 0 && found.None? then was.(value := 0)
                      else was.(value := if found.Some? then found.value else val, blob := found)
    {
      slot := was;
      if was.blob.Some? { refs := Adjust(refs, was.blob, -1); }
      refs := Adjust(refs, found, 1);
      if val != 0 && found.None? {
        slot := slot.(value := 0);
      } else {
        slot := slot.(value := if found.Some? then found.value else val, blob := found);
      }
    }

    /** The end of a set: the value is stored and, if it changed or is volatile, its
        node linked. */
    method StoreValue(id: nat, i: nat, slot: Value)
      requires Valid() && id in live && i < |props| && slot.linked == live[id].values[i].linked
      modifies `live
      ensures Valid() && live == old(live)[id := Write(old(live)[id], i, slot, force[i])]
    {
      var st := live[id];
      WriteDirtyOk(st, i, slot, force[i]);
      var d, linked := st.dirty, slot.linked;
      if (st.values[i].value != slot.value || force[i]) && !linked { d, linked := d + [i], true; }
      live := live[id := State(st.values[i := slot.(linked := linked)], d)];
      assert live[id] == Write(st, i, slot, force[i]);
    }

    method AllocState(addr: Option<nat>) returns (id: Option<nat>)
      modifies `raw, `cache
      ensures (Now(), id) == Alloc(old(Now()), addr)
    {
      id := None;
      if |cache| != 0 {
        id := Some(cache[|cache| - 1]);
        cache := cache[..|cache| - 1];
      }
      if id.None? { id := addr; }
      if id.Some? { raw := raw + {id.value}; }
    }

    /** memory is what the value array holds before the call. */
    method ResetState(id: nat, memory: seq<Value>)
      requires Valid() && |memory| == |props|
      modifies `live, `raw
      ensures Valid() && Now() == Reset(old(Now()), id, defaults)
    {
      var vs := memory;
      for i := 0 to |props|
        invariant |vs| == |props| && forall k :: 0 <= k < i ==> vs[k] == Value(defaults[k], None, false)
      {
        vs := vs[i := Value(defaults[i], None, false)];
      }
      assert vs == Defaults(defaults).values;
      live, raw := live[id := State(vs, [])], raw - {id};
    }

    method DuplicateState(src: nat, dst: nat)
      requires Valid() && src in live
      modifies `live, `raw, `refs
      ensures Valid() && Now() == Duplicate(old(Now()), src, dst)
    {
      var vs := live[src].values;
      var copy := vs;
      for i := 0 to |props|
        invariant refs == AdjustAll(old(refs), vs[..i], 1)
        invariant live == old(live) && raw == old(raw) && |copy| == |vs|
        invariant forall k :: 0 <= k < |vs| ==> copy[k] == if k < i then vs[k].(linked := false) else vs[k]
      {
        assert vs[..i + 1][..i] == vs[..i];
        if copy[i].blob.Some? { refs := Adjust(refs, copy[i].blob, 1); }
        copy := copy[i := copy[i].(linked := false)];
      }
      assert vs[..|props|] == vs && copy == Unlinked(vs);
      live, raw := live[dst := State(copy, [])], raw - {dst};
    }

    method DestroyState(id: nat)
      requires Valid() && id in live
      modifies `live, `cache, `refs
      ensures Valid() && Now() == Destroy(old(Now()), id)
    {
      var vs := live[id].values;
      for i := 0 to |props|
        invariant refs == AdjustAll(old(refs), vs[..i], -1)
        invariant live == old(live) && cache == old(cache)
      {
        assert vs[..i + 1][..i] == vs[..i];
        if vs[i].blob.Some? { refs := Adjust(refs, vs[i].blob, -1); }
      }
      assert vs[..|props|] == vs;
      live := live - {id};
      if |cache| < CACHE_SIZE { cache := cache + [id]; }
    }
  }
}
