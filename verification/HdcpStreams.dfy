/**
 The stream table of the HDCP 2.2 transmitter (sde_hdcp_2x.c). The caller's
 thread adds and removes entries, the transmitter's own thread opens and closes
 them in TrustZone and clears the table.
 */
module HdcpStreams {
  import opened Common

  const U8 := 256

  datatype Stream = Stream(id: nat, vc: nat, handle: nat, active: bool)
  datatype Key = Key(id: nat, vc: nat)

  /** open: the handles TrustZone considers open. */
  datatype Table = Table(list: seq<Stream>, count: nat, open: set<nat>)

  function KeyOf(e: Stream): Key { Key(e.id, e.vc) }

  function Keys(list: seq<Stream>): set<Key> { set i | 0 <= i < |list| :: KeyOf(list[i]) }

  /** sde_hdcp_2x_stream_present: position of the entry, or the list's length. */
  function Find(list: seq<Stream>, k: Key): (i: nat)
    ensures i <= |list| && (i < |list| ==> KeyOf(list[i]) == k)
    ensures forall j :: 0 <= j < i ==> KeyOf(list[j]) != k
  {
    if list == [] || KeyOf(list[0]) == k then 0 else Find(list[1..], k) + 1
  }

  // ---------- Operations ----------

  function Unlink(t: Table, i: nat): Table
    requires i < |t.list|
  {
    t.(list := Without(t.list, i), count := (t.count + U8 - 1) % U8)
  }

  function AddOne(t: Table, k: Key, memOk: bool): Table {
    if Find(t.list, k) < |t.list| || !memOk then t
    else t.(list := [Stream(k.id, k.vc, 0, true)] + t.list, count := (t.count + 1) % U8)
  }

  function RemoveOne(t: Table, k: Key): Table {
    var i := Find(t.list, k);
    if i == |t.list| then t
    else if t.list[i].handle == 0 then Unlink(t, i)
    else t.(list := t.list[i := t.list[i].(active := false)])
  }

  /** TrustZone's answer to an open: a handle, whatever its value, or an error. */
  datatype Open = Opened(handle: nat) | Refused

  /** One turn of the manage loop on position i: the table and the next position. */
  function ManageOne(t: Table, i: nat, o: Open): (Table, nat)
    requires i < |t.list|
  {
    var e := t.list[i];
    if !e.active then (Unlink(t, i).(open := t.open - {e.handle}), i)
    else if e.handle == 0 && o.Opened? then
      (t.(list := t.list[i := e.(handle := o.handle)], open := t.open + {o.handle}), i + 1)
    else (t, i + 1)
  }

  /** The turn closes an entry, or an open succeeds: the streams must be queried. */
  predicate Asks(t: Table, i: nat, o: Open)
    requires i < |t.list|
  {
    !t.list[i].active || (t.list[i].handle == 0 && o.Opened?)
  }

  function First(answers: seq<Open>): Open { if answers == [] then Refused else answers[0] }

  function Rest(answers: seq<Open>): seq<Open> { if answers == [] then [] else answers[1..] }

  function ManageFrom(t: Table, i: nat, answers: seq<Open>): Table
    requires i <= |t.list|
    decreases |t.list| - i
  {
    if i == |t.list| then t
    else
      var (t', i') := ManageOne(t, i, First(answers));
      ManageFrom(t', i', Rest(answers))
  }

  predicate AsksFrom(t: Table, i: nat, answers: seq<Open>)
    requires i <= |t.list|
    decreases |t.list| - i
  {
    i < |t.list| &&
    (Asks(t, i, First(answers)) ||
     var (t', i') := ManageOne(t, i, First(answers));
     AsksFrom(t', i', Rest(answers)))
  }

  /** A handle that TrustZone hands out is not zero and not open already. */
  predicate Sound(t: Table, i: nat, o: Open)
    requires i < |t.list|
  {
    t.list[i].active && t.list[i].handle == 0 && o.Opened? ==> o.handle != 0 && o.handle !in t.open
  }

  predicate SoundFrom(t: Table, i: nat, answers: seq<Open>)
    requires i <= |t.list|
    decreases |t.list| - i
  {
    i == |t.list| ||
    (Sound(t, i, First(answers)) &&
     var (t', i') := ManageOne(t, i, First(answers));
     SoundFrom(t', i', Rest(answers)))
  }

  function Handles(list: seq<Stream>): set<nat> { set i | 0 <= i < |list| :: list[i].handle }

  /** Closes and unlinks every entry; a handle of zero closes nothing. */
  function Clean(t: Table): Table {
    if t.list == [] then t
    else Table([], (t.count + (U8 - 1) * |t.list|) % U8, t.open - Handles(t.list))
  }

  // ---------- Invariant ----------

  ghost predicate ListOk(list: seq<Stream>) {
    && (forall i, j :: 0 <= i < j < |list| ==> KeyOf(list[i]) != KeyOf(list[j]))
    && (forall i, j :: 0 <= i < j < |list| && list[i].handle != 0 ==> list[i].handle != list[j].handle)
    && (forall i :: 0 <= i < |list| && !list[i].active ==> list[i].handle != 0)
  }

  /** Keys unique, every inactive entry open, the counter is the length modulo
      256, and TrustZone's open handles are the nonzero handles of the list. */
  ghost predicate Inv(t: Table) {
    ListOk(t.list) && t.count == |t.list| % U8 && t.open == Handles(t.list) - {0}
  }

  lemma WithoutElements(list: seq<Stream>, i: nat)
    requires i < |list|
    ensures forall j :: 0 <= j < i ==> Without(list, i)[j] == list[j]
    ensures forall j :: i <= j < |list| - 1 ==> Without(list, i)[j] == list[j + 1]
    ensures forall j :: i < j < |list| ==> list[j] == Without(list, i)[j - 1]
  {
  }

  lemma UnlinkedHandles(list: seq<Stream>, i: nat)
    requires ListOk(list) && i < |list|
    ensures ListOk(Without(list, i))
    ensures Handles(Without(list, i)) - {0} == Handles(list) - {0} - {list[i].handle}
  {
    WithoutElements(list, i);
    var rest := Without(list, i);
    forall h ensures h in Handles(rest) - {0} <==> h in Handles(list) - {0} - {list[i].handle} {
      if h in Handles(list) - {0} - {list[i].handle} {
        var j :| 0 <= j < |list| && list[j].handle == h;
        assert rest[if j < i then j else j - 1].handle == h;
      }
    }
  }

  lemma CountDown(n: nat, count: nat)
    requires n > 0 && count == n % U8
    ensures (count + U8 - 1) % U8 == (n - 1) % U8
  {
  }

  lemma UnlinkInv(t: Table, i: nat)
    requires Inv(t) && i < |t.list|
    ensures Inv(Unlink(t, i).(open := t.open - {t.list[i].handle}))
  {
    UnlinkedHandles(t.list, i);
    CountDown(|t.list|, t.count);
  }

  lemma AddOneInv(t: Table, k: Key, memOk: bool)
    requires Inv(t)
    ensures Inv(AddOne(t, k, memOk))
    ensures Keys(AddOne(t, k, memOk).list) == Keys(t.list) + if memOk then {k} else {}
  {
    var i := Find(t.list, k);
    if i < |t.list| {
      assert KeyOf(t.list[i]) == k;
    } else if memOk {
      var e := Stream(k.id, k.vc, 0, true);
      NotFound(t.list, k);
      ConsSets(e, t.list);
      ConsOk(e, t.list);
      CountUp(|t.list|, t.count);
      assert Handles(t.list) + {0} - {0} == Handles(t.list) - {0};
    }
  }

  lemma NotFound(list: seq<Stream>, k: Key)
    ensures Find(list, k) == |list| <==> k !in Keys(list)
  {
    if Find(list, k) < |list| { assert KeyOf(list[Find(list, k)]) in Keys(list); }
  }

  lemma ConsSets(e: Stream, list: seq<Stream>)
    ensures Handles([e] + list) == Handles(list) + {e.handle}
    ensures Keys([e] + list) == Keys(list) + {KeyOf(e)}
  {
    var all := [e] + list;
    assert forall j :: 0 <= j < |list| ==> list[j] == all[j + 1];
    assert forall j :: 0 < j < |all| ==> all[j] == list[j - 1];
    assert all[0] == e;
  }

  lemma ConsOk(e: Stream, list: seq<Stream>)
    requires ListOk(list) && KeyOf(e) !in Keys(list) && e.handle == 0 && e.active
    ensures ListOk([e] + list)
  {
    var all := [e] + list;
    assert forall j :: 0 < j < |all| ==> all[j] == list[j - 1];
    forall j | 0 < j < |all| ensures KeyOf(all[j]) != KeyOf(all[0]) {
      assert KeyOf(list[j - 1]) in Keys(list);
    }
  }

  lemma RemoveOneInv(t: Table, k: Key)
    requires Inv(t)
    ensures Inv(RemoveOne(t, k))
    ensures var i := Find(t.list, k);
            i < |t.list| ==> if t.list[i].handle == 0 then k !in Keys(RemoveOne(t, k).list)
                             else RemoveOne(t, k).list[i] == t.list[i].(active := false)
  {
    var i := Find(t.list, k);
    if i < |t.list| {
      if t.list[i].handle == 0 {
        UnlinkInv(t, i);
        WithoutElements(t.list, i);
        assert t.open - {0} == t.open;
      } else {
        var list := t.list[i := t.list[i].(active := false)];
        assert forall j :: 0 <= j < |list| ==> list[j].handle == t.list[j].handle && KeyOf(list[j]) == KeyOf(t.list[j]);
        assert Handles(list) == Handles(t.list);
      }
    }
  }

  /** One turn keeps the invariant exactly when the handle it is given, if any, is
      nonzero and new. */
  lemma ManageOneInvIff(t: Table, i: nat, o: Open)
    requires Inv(t) && i < |t.list|
    ensures Inv(ManageOne(t, i, o).0) <==> Sound(t, i, o)
  {
    var e := t.list[i];
    if !e.active {
      UnlinkInv(t, i);
    } else if e.handle == 0 && o.Opened? {
      if Sound(t, i, o) { OpenInv(t, i, o.handle); } else { OpenBreaks(t, i, o.handle); }
    }
  }

  lemma OpenInv(t: Table, i: nat, h: nat)
    requires Inv(t) && i < |t.list| && t.list[i].handle == 0 && h != 0 && h !in t.open
    ensures Inv(t.(list := t.list[i := t.list[i].(handle := h)], open := t.open + {h}))
  {
    var list := t.list[i := t.list[i].(handle := h)];
    forall j | 0 <= j < |list| && j != i ensures list[j].handle != h { assert t.list[j].handle in Handles(t.list); }
    forall x ensures x in Handles(list) - {0} <==> x in t.open || x == h {
      if x == h { assert list[i].handle == x; }
      if x in t.open {
        var j :| 0 <= j < |t.list| && t.list[j].handle == x;
        assert list[j].handle == x;
      }
    }
  }

  lemma OpenBreaks(t: Table, i: nat, h: nat)
    requires Inv(t) && i < |t.list| && t.list[i].handle == 0 && (h == 0 || h in t.open)
    ensures !Inv(t.(list := t.list[i := t.list[i].(handle := h)], open := t.open + {h}))
  {
    var list := t.list[i := t.list[i].(handle := h)];
    if h != 0 {
      var j :| 0 <= j < |t.list| && t.list[j].handle == h;
      assert list[i].handle == list[j].handle == h && i != j;
    } else {
      assert 0 in t.open + {h} && 0 !in Handles(list) - {0};
    }
  }

  lemma {:induction false} ManageFromInv(t: Table, i: nat, answers: seq<Open>)
    requires Inv(t) && i <= |t.list| && SoundFrom(t, i, answers)
    ensures Inv(ManageFrom(t, i, answers))
    decreases |t.list| - i
  {
    if i < |t.list| {
      ManageOneInvIff(t, i, First(answers));
      var (t', i') := ManageOne(t, i, First(answers));
      ManageFromInv(t', i', Rest(answers));
    }
  }

  /** Manage leaves active entries only. */
  lemma {:induction false} ManageLeavesActive(t: Table, i: nat, answers: seq<Open>)
    requires i <= |t.list| && forall j :: 0 <= j < i ==> t.list[j].active
    ensures forall j :: 0 <= j < |ManageFrom(t, i, answers).list| ==> ManageFrom(t, i, answers).list[j].active
    decreases |t.list| - i
  {
    if i < |t.list| {
      var (t', i') := ManageOne(t, i, First(answers));
      ManageLeavesActive(t', i', Rest(answers));
    }
  }

  /** What comes before position i stays, and no entry is added. */
  lemma {:induction false} ManagePrefix(t: Table, i: nat, answers: seq<Open>)
    requires i <= |t.list|
    ensures var list := ManageFrom(t, i, answers).list; i <= |list| <= |t.list| && list[..i] == t.list[..i]
    decreases |t.list| - i
  {
    if i < |t.list| {
      var (t', i') := ManageOne(t, i, First(answers));
      ManagePrefix(t', i', Rest(answers));
      assert t'.list[..i] == t.list[..i];
      var list := ManageFrom(t', i', Rest(answers)).list;
      assert list[..i] == list[..i'][..i] && t'.list[..i] == t'.list[..i'][..i];
    }
  }

  /** With sound handles the streams are queried exactly when the list changed. */
  lemma {:induction false} AsksIffChanged(t: Table, i: nat, answers: seq<Open>)
    requires i <= |t.list| && SoundFrom(t, i, answers)
    ensures AsksFrom(t, i, answers) <==> ManageFrom(t, i, answers).list != t.list
    decreases |t.list| - i
  {
    if i < |t.list| {
      var (t', i') := ManageOne(t, i, First(answers));
      ManagePrefix(t', i', Rest(answers));
      AsksIffChanged(t', i', Rest(answers));
      if Asks(t, i, First(answers)) && t.list[i].active {
        var list := ManageFrom(t', i', Rest(answers)).list;
        assert list[i] == list[..i'][i] == t'.list[..i'][i] == t'.list[i];
      }
    }
  }

  /** What manage keeps: exactly the active entries, in order. */
  function ActiveKeys(list: seq<Stream>): seq<Key> {
    if list == [] then []
    else ActiveKeys(list[..|list| - 1]) + if list[|list| - 1].active then [KeyOf(list[|list| - 1])] else []
  }

  lemma {:induction false} ActiveKeysSplit(a: seq<Stream>, b: seq<Stream>)
    ensures ActiveKeys(a + b) == ActiveKeys(a) + ActiveKeys(b)
  {
    if b == [] {
      assert a + b == a;
    } else {
      var n, all := |b| - 1, a + b;
      ActiveKeysSplit(a, b[..n]);
      assert all[..|all| - 1] == a + b[..n] && all[|all| - 1] == b[n];
      var last := if b[n].active then [KeyOf(b[n])] else [];
      assert ActiveKeys(all) == ActiveKeys(a + b[..n]) + last;
      assert ActiveKeys(a) + ActiveKeys(b[..n]) + last == ActiveKeys(a) + (ActiveKeys(b[..n]) + last);
    }
  }

  lemma ActiveKeysOne(e: Stream)
    ensures ActiveKeys([e]) == if e.active then [KeyOf(e)] else []
  {
    assert [e][..0] == [];
  }

  lemma {:induction false} ActiveKeysInside(a: seq<Stream>, e: Stream, b: seq<Stream>)
    ensures ActiveKeys(a + ([e] + b)) == ActiveKeys(a) + (if e.active then [KeyOf(e)] else []) + ActiveKeys(b)
  {
    ActiveKeysSplit(a, [e] + b);
    ActiveKeysSplit([e], b);
    ActiveKeysOne(e);
    var x, y, z := ActiveKeys(a), ActiveKeys([e]), ActiveKeys(b);
    assert x + (y + z) == x + y + z;
  }

  lemma Around(list: seq<Stream>, i: nat)
    requires i < |list|
    ensures list == list[..i] + ([list[i]] + list[i + 1..])
  {
  }

  lemma {:induction false} ActiveKeysAt(list: seq<Stream>, i: nat)
    requires i < |list|
    ensures ActiveKeys(list) ==
            ActiveKeys(list[..i]) + (if list[i].active then [KeyOf(list[i])] else []) + ActiveKeys(list[i + 1..])
  {
    Around(list, i);
    ActiveKeysInside(list[..i], list[i], list[i + 1..]);
  }

  lemma ManageOneKeepsActive(t: Table, i: nat, o: Open)
    requires i < |t.list|
    ensures ActiveKeys(ManageOne(t, i, o).0.list) == ActiveKeys(t.list)
  {
    var list := ManageOne(t, i, o).0.list;
    ActiveKeysAt(t.list, i);
    if !t.list[i].active {
      ActiveKeysSplit(t.list[..i], t.list[i + 1..]);
    } else {
      ActiveKeysAt(list, i);
      assert list[..i] == t.list[..i] && list[i + 1..] == t.list[i + 1..];
    }
  }

  lemma {:induction false} ManageKeepsActive(t: Table, i: nat, answers: seq<Open>)
    requires i <= |t.list|
    ensures ActiveKeys(ManageFrom(t, i, answers).list) == ActiveKeys(t.list)
    decreases |t.list| - i
  {
    if i < |t.list| {
      var (t', i') := ManageOne(t, i, First(answers));
      ManageOneKeepsActive(t, i, First(answers));
      ManageKeepsActive(t', i', Rest(answers));
    }
  }

  lemma CleanInv(t: Table)
    requires Inv(t)
    ensures Clean(t) == Table([], 0, {})
  {
    CountsToZero(|t.list|);
  }

  lemma CountsToZero(n: nat)
    ensures (n % U8 + (U8 - 1) * n) % U8 == 0
  {
    var k := n - n / U8;
    assert n % U8 + (U8 - 1) * n == U8 * k;
  }

  // ---------- Every interleaving ----------

  datatype Op =
    | OAdd(keys: seq<Key>, mem: seq<bool>)
    | ORemove(keys: seq<Key>)
    | OManage(answers: seq<Open>)
    | OClean

  function Add(t: Table, ks: seq<Key>, mem: seq<bool>): Table
    decreases |ks|
  {
    if ks == [] then t
    else Add(AddOne(t, ks[0], mem != [] && mem[0]), ks[1..], if mem == [] then [] else mem[1..])
  }

  function Remove(t: Table, ks: seq<Key>): Table
    decreases |ks|
  {
    if ks == [] then t else Remove(RemoveOne(t, ks[0]), ks[1..])
  }

  function Do(t: Table, op: Op): Table {
    match op
    case OAdd(ks, mem) => Add(t, ks, mem)
    case ORemove(ks) => Remove(t, ks)
    case OManage(answers) => ManageFrom(t, 0, answers)
    case OClean => Clean(t)
  }

  function Run(t: Table, ops: seq<Op>): Table
    decreases |ops|
  {
    if ops == [] then t else Run(Do(t, ops[0]), ops[1..])
  }

  lemma {:induction false} AddInv(t: Table, ks: seq<Key>, mem: seq<bool>)
    requires Inv(t)
    ensures Inv(Add(t, ks, mem))
    decreases |ks|
  {
    if ks != [] {
      AddOneInv(t, ks[0], mem != [] && mem[0]);
      AddInv(AddOne(t, ks[0], mem != [] && mem[0]), ks[1..], if mem == [] then [] else mem[1..]);
    }
  }

  lemma {:induction false} RemoveInv(t: Table, ks: seq<Key>)
    requires Inv(t)
    ensures Inv(Remove(t, ks))
    decreases |ks|
  {
    if ks != [] {
      RemoveOneInv(t, ks[0]);
      RemoveInv(RemoveOne(t, ks[0]), ks[1..]);
    }
  }

  // ---------- What each step does to the list ----------

  function Asked(ks: seq<Key>, mem: seq<bool>): set<Key>
    requires |ks| == |mem|
  {
    set j | 0 <= j < |ks| && mem[j] :: ks[j]
  }

  /** b is a with new entries before it, all active and unopened. */
  ghost predicate Grew(a: seq<Stream>, b: seq<Stream>) {
    var n := |b| - |a|;
    n >= 0 && b[n..] == a && forall j :: 0 <= j < n ==> b[j].active && b[j].handle == 0
  }

  lemma GrewTrans(a: seq<Stream>, b: seq<Stream>, c: seq<Stream>)
    requires Grew(a, b) && Grew(b, c)
    ensures Grew(a, c)
  {
    var n, m := |c| - |a|, |c| - |b|;
    assert c[n..] == c[m..][n - m..] == b[n - m..];
    assert forall j :: m <= j < n ==> c[j] == c[m..][j - m];
  }

  /** Adding leaves the old entries as they are; the keys are then the old ones and
      those that memory was found for. */
  lemma {:induction false} AddExact(t: Table, ks: seq<Key>, mem: seq<bool>)
    requires |ks| == |mem|
    ensures var t' := Add(t, ks, mem);
            Grew(t.list, t'.list) && t'.open == t.open && Keys(t'.list) == Keys(t.list) + Asked(ks, mem)
    decreases |ks|
  {
    if ks != [] {
      var one := AddOne(t, ks[0], mem[0]);
      AddOneKeys(t, ks[0], mem[0]);
      AddExact(one, ks[1..], mem[1..]);
      AskedCons(ks, mem);
      GrewTrans(t.list, one.list, Add(t, ks, mem).list);
    }
  }

  lemma AddOneKeys(t: Table, k: Key, memOk: bool)
    ensures var one := AddOne(t, k, memOk);
            && Grew(t.list, one.list) && one.open == t.open
            && Keys(one.list) == Keys(t.list) + if memOk then {k} else {}
  {
    ConsSets(Stream(k.id, k.vc, 0, true), t.list);
    if Find(t.list, k) < |t.list| { assert KeyOf(t.list[Find(t.list, k)]) in Keys(t.list); }
  }

  lemma AskedCons(ks: seq<Key>, mem: seq<bool>)
    requires |ks| == |mem| > 0
    ensures Asked(ks, mem) == (if mem[0] then {ks[0]} else {}) + Asked(ks[1..], mem[1..])
  {
    assert forall j :: 0 <= j < |ks| - 1 ==> ks[1..][j] == ks[j + 1] && mem[1..][j] == mem[j + 1];
    assert forall j :: 0 < j < |ks| ==> ks[j] == ks[1..][j - 1] && mem[j] == mem[1..][j - 1];
  }

  function Entries(list: seq<Stream>): set<Stream> { set i | 0 <= i < |list| :: list[i] }

  /** The entries with some keys removed: an unopened one is gone, an opened one stays
      and is inactive. */
  function Less(es: set<Stream>, ks: set<Key>): set<Stream> {
    set e | e in es && !(KeyOf(e) in ks && e.handle == 0) :: if KeyOf(e) in ks then e.(active := false) else e
  }

  lemma RemoveOneExact(t: Table, k: Key)
    requires forall i, j :: 0 <= i < j < |t.list| ==> KeyOf(t.list[i]) != KeyOf(t.list[j])
    ensures var list := RemoveOne(t, k).list;
            && Entries(list) == Less(Entries(t.list), {k}) && RemoveOne(t, k).open == t.open
            && (forall i, j :: 0 <= i < j < |list| ==> KeyOf(list[i]) != KeyOf(list[j]))
  {
    var i, list := Find(t.list, k), RemoveOne(t, k).list;
    forall j | 0 <= j < |t.list| ensures KeyOf(t.list[j]) == k <==> j == i {
      if i < j { assert KeyOf(t.list[i]) != KeyOf(t.list[j]); }
    }
    if i < |t.list| && t.list[i].handle == 0 {
      WithoutElements(t.list, i);
      EntriesWithout(t.list, i, k);
    } else if i < |t.list| {
      EntriesMarked(t.list, i, k);
    }
  }

  lemma EntriesWithout(list: seq<Stream>, i: nat, k: Key)
    requires i < |list| && list[i].handle == 0 && forall j :: 0 <= j < |list| ==> (KeyOf(list[j]) == k <==> j == i)
    ensures Entries(Without(list, i)) == Less(Entries(list), {k})
  {
    WithoutElements(list, i);
    var rest := Without(list, i);
    forall e | e in Less(Entries(list), {k}) ensures e in Entries(rest) {
      var j :| 0 <= j < |list| && list[j] == e && j != i;
      assert rest[if j < i then j else j - 1] == e;
    }
    forall e | e in Entries(rest) ensures e in Less(Entries(list), {k}) {
      var j :| 0 <= j < |rest| && rest[j] == e;
      var l := if j < i then j else j + 1;
      assert list[l] == e && l != i && e in Entries(list);
    }
  }

  lemma EntriesMarked(list: seq<Stream>, i: nat, k: Key)
    requires i < |list| && list[i].handle != 0 && forall j :: 0 <= j < |list| ==> (KeyOf(list[j]) == k <==> j == i)
    ensures Entries(list[i := list[i].(active := false)]) == Less(Entries(list), {k})
  {
    var marked := list[i := list[i].(active := false)];
    forall e | e in Less(Entries(list), {k}) ensures e in Entries(marked) {
      var e0 :| e0 in Entries(list) && e == if KeyOf(e0) == k then e0.(active := false) else e0;
      var j :| 0 <= j < |list| && list[j] == e0;
      assert marked[j] == e;
    }
    forall e | e in Entries(marked) ensures e in Less(Entries(list), {k}) {
      var j :| 0 <= j < |marked| && marked[j] == e;
      assert list[j] in Entries(list);
    }
  }

  /** Removing any list of keys. */
  lemma {:induction false} RemoveExact(t: Table, ks: seq<Key>)
    requires forall i, j :: 0 <= i < j < |t.list| ==> KeyOf(t.list[i]) != KeyOf(t.list[j])
    ensures Entries(Remove(t, ks).list) == Less(Entries(t.list), set k | k in ks) && Remove(t, ks).open == t.open
    decreases |ks|
  {
    if ks == [] {
      assert Less(Entries(t.list), {}) == Entries(t.list);
    } else {
      RemoveOneExact(t, ks[0]);
      RemoveExact(RemoveOne(t, ks[0]), ks[1..]);
      assert ks == [ks[0]] + ks[1..];
      LessTwice(Entries(t.list), {ks[0]}, set k | k in ks[1..]);
      assert {ks[0]} + (set k | k in ks[1..]) == set k | k in ks;
    }
  }

  lemma LessTwice(es: set<Stream>, a: set<Key>, b: set<Key>)
    ensures Less(Less(es, a), b) == Less(es, a + b)
  {
    var once, twice := Less(es, a), Less(es, a + b);
    forall e | e in Less(once, b) ensures e in twice {
      var e1 :| e1 in once && !(KeyOf(e1) in b && e1.handle == 0) &&
                e == if KeyOf(e1) in b then e1.(active := false) else e1;
      var e0 :| e0 in es && !(KeyOf(e0) in a && e0.handle == 0) &&
                e1 == if KeyOf(e0) in a then e0.(active := false) else e0;
    }
    forall e | e in twice ensures e in Less(once, b) {
      var e0 :| e0 in es && !(KeyOf(e0) in a + b && e0.handle == 0) &&
                e == if KeyOf(e0) in a + b then e0.(active := false) else e0;
      var e1 := if KeyOf(e0) in a then e0.(active := false) else e0;
      assert e1 in once;
    }
  }

  /** An entry that is active and open is left alone by manage. */
  lemma {:induction false} ManageKeepsOpen(t: Table, i: nat, answers: seq<Open>, e: Stream)
    requires i <= |t.list| && e in t.list && e.active && e.handle != 0
    ensures e in ManageFrom(t, i, answers).list
    decreases |t.list| - i
  {
    if i < |t.list| {
      var (t', i') := ManageOne(t, i, First(answers));
      var j :| 0 <= j < |t.list| && t.list[j] == e;
      WithoutElements(t.list, i);
      assert j != i && !t.list[i].active ==> t'.list[if j < i then j else j - 1] == e;
      assert t.list[i].active ==> t'.list[j] == e;
      ManageKeepsOpen(t', i', Rest(answers), e);
    }
  }

  ghost predicate AllOpen(list: seq<Stream>) { forall j :: 0 <= j < |list| ==> list[j].handle != 0 }

  /** When every open succeeds, every entry left is open. */
  lemma {:induction false} ManageOpensAll(t: Table, i: nat, answers: seq<Open>)
    requires i <= |t.list| <= i + |answers| && SoundFrom(t, i, answers)
    requires forall k :: 0 <= k < |answers| ==> answers[k].Opened?
    requires forall j :: 0 <= j < i ==> t.list[j].handle != 0
    ensures AllOpen(ManageFrom(t, i, answers).list)
    decreases |t.list| - i
  {
    if i < |t.list| {
      var (t', i') := ManageOne(t, i, First(answers));
      assert forall k :: 0 <= k < |answers| - 1 ==> answers[1..][k] == answers[k + 1];
      WithoutElements(t.list, i);
      ManageOpensAll(t', i', Rest(answers));
    }
  }

  /** Every handle TrustZone hands out in the run is nonzero and new. */
  predicate SoundRun(t: Table, ops: seq<Op>)
    decreases |ops|
  {
    ops == [] || ((ops[0].OManage? ==> SoundFrom(t, 0, ops[0].answers)) && SoundRun(Do(t, ops[0]), ops[1..]))
  }

  /** After every interleaving of add, remove, manage and clean. */
  lemma {:induction false} RunInv(t: Table, ops: seq<Op>)
    requires Inv(t) && SoundRun(t, ops)
    ensures Inv(Run(t, ops))
    decreases |ops|
  {
    if ops != [] {
      StepInv(t, ops[0]);
      RunInv(Do(t, ops[0]), ops[1..]);
    }
  }

  /** The invariant holds before and after every turn of the loop. */
  ghost predicate HeldFrom(t: Table, i: nat, answers: seq<Open>)
    requires i <= |t.list|
    decreases |t.list| - i
  {
    Inv(t) &&
    (i < |t.list| ==>
       var (t', i') := ManageOne(t, i, First(answers));
       HeldFrom(t', i', Rest(answers)))
  }

  lemma {:induction false} HeldFromIff(t: Table, i: nat, answers: seq<Open>)
    requires Inv(t) && i <= |t.list|
    ensures HeldFrom(t, i, answers) <==> SoundFrom(t, i, answers)
    decreases |t.list| - i
  {
    if i < |t.list| {
      ManageOneInvIff(t, i, First(answers));
      var (t', i') := ManageOne(t, i, First(answers));
      if Inv(t') { HeldFromIff(t', i', Rest(answers)); }
    }
  }

  /** The invariant never lapses, in no turn of any step. */
  ghost predicate HeldRun(t: Table, ops: seq<Op>)
    decreases |ops|
  {
    Inv(t) &&
    (ops != [] ==> (ops[0].OManage? ==> HeldFrom(t, 0, ops[0].answers)) && HeldRun(Do(t, ops[0]), ops[1..]))
  }

  lemma StepInv(t: Table, op: Op)
    requires Inv(t) && (op.OManage? ==> SoundFrom(t, 0, op.answers))
    ensures Inv(Do(t, op))
  {
    match op
    case OAdd(ks, mem) => AddInv(t, ks, mem);
    case ORemove(ks) => RemoveInv(t, ks);
    case OManage(answers) => ManageFromInv(t, 0, answers);
    case OClean => CleanInv(t);
  }

  /** In every interleaving the invariant never lapses exactly when every handle that
      TrustZone hands out is nonzero and new. */
  lemma {:induction false} RunHeldIff(t: Table, ops: seq<Op>)
    requires Inv(t)
    ensures HeldRun(t, ops) <==> SoundRun(t, ops)
    decreases |ops|
  {
    if ops != [] {
      if ops[0].OManage? { HeldFromIff(t, 0, ops[0].answers); }
      if ops[0].OManage? ==> SoundFrom(t, 0, ops[0].answers) {
        StepInv(t, ops[0]);
        RunHeldIff(Do(t, ops[0]), ops[1..]);
      }
    }
  }

  // ---------- The counter, whatever TrustZone answers ----------

  ghost predicate Counted(t: Table) { t.count == |t.list| % U8 }

  lemma CountUp(n: nat, count: nat)
    requires count == n % U8
    ensures (count + 1) % U8 == (n + 1) % U8
  {
  }

  lemma {:induction false} AddCounted(t: Table, ks: seq<Key>, mem: seq<bool>)
    requires Counted(t)
    ensures Counted(Add(t, ks, mem))
    decreases |ks|
  {
    if ks != [] {
      CountUp(|t.list|, t.count);
      AddCounted(AddOne(t, ks[0], mem != [] && mem[0]), ks[1..], if mem == [] then [] else mem[1..]);
    }
  }

  lemma {:induction false} RemoveCounted(t: Table, ks: seq<Key>)
    requires Counted(t)
    ensures Counted(Remove(t, ks))
    decreases |ks|
  {
    if ks != [] {
      if t.list != [] { CountDown(|t.list|, t.count); }
      RemoveCounted(RemoveOne(t, ks[0]), ks[1..]);
    }
  }

  lemma {:induction false} ManageCounted(t: Table, i: nat, answers: seq<Open>)
    requires Counted(t) && i <= |t.list|
    ensures Counted(ManageFrom(t, i, answers))
    decreases |t.list| - i
  {
    if i < |t.list| {
      CountDown(|t.list|, t.count);
      var (t', i') := ManageOne(t, i, First(answers));
      ManageCounted(t', i', Rest(answers));
    }
  }

  lemma {:induction false} RunCounted(t: Table, ops: seq<Op>)
    requires Counted(t)
    ensures Counted(Run(t, ops))
    decreases |ops|
  {
    if ops != [] {
      match ops[0] {
        case OAdd(ks, mem) => AddCounted(t, ks, mem);
        case ORemove(ks) => RemoveCounted(t, ks);
        case OManage(answers) => ManageCounted(t, 0, answers);
        case OClean => CountsToZero(|t.list|);
      }
      RunCounted(Do(t, ops[0]), ops[1..]);
    }
  }

  /** The 8-bit stream_count is the number of entries exactly while there are
      fewer than 256. */
  lemma CountExactIff(ops: seq<Op>)
    ensures var t := Run(Table([], 0, {}), ops); t.count == |t.list| <==> |t.list| < U8
  {
    RunCounted(Table([], 0, {}), ops);
  }

  // ---------- The imperative code ----------

  class StreamTable {
    var list: seq<Stream>
    var count: nat
    var open: set<nat>

    ghost function Now(): Table reads this { Table(list, count, open) }

    constructor ()
      ensures Now() == Table([], 0, {})
    {
      list, count, open := [], 0, {};
    }

    method Present(k: Key) returns (i: nat)
      ensures i == Find(list, k)
    {
      i := 0;
      while i < |list| && KeyOf(list[i]) != k
        invariant i <= |list| && forall j :: 0 <= j < i ==> KeyOf(list[j]) != k
      {
        i := i + 1;
      }
    }

    method AddStreams(keys: seq<Key>, mem: seq<bool>) returns (changed: bool)
      requires |mem| == |keys|
      modifies this
      ensures Now() == Add(old(Now()), keys, mem)
      ensures changed <==> |list| > |old(list)|
    {
      changed := false;
      for n := 0 to |keys|
        invariant Add(old(Now()), keys, mem) == Add(Now(), keys[n..], mem[n..])
        invariant |list| >= |old(list)| && (changed <==> |list| > |old(list)|)
      {
        var i := Present(keys[n]);
        if i == |list| && mem[n] {
          list := [Stream(keys[n].id, keys[n].vc, 0, true)] + list;
          count := (count + 1) % U8;
          changed := true;
        }
      }
    }

    method RemoveStreams(keys: seq<Key>) returns (changed: bool)
      modifies this
      ensures Now() == Remove(old(Now()), keys)
      ensures !changed ==> Now() == old(Now())
    {
      changed := false;
      for n := 0 to |keys|
        invariant Remove(old(Now()), keys) == Remove(Now(), keys[n..])
        invariant !changed ==> Now() == old(Now())
      {
        assert keys[n..][1..] == keys[n + 1..];
        var hit := RemoveStream(keys[n]);
        changed := changed || hit;
      }
    }

    method RemoveStream(k: Key) returns (hit: bool)
      modifies this
      ensures Now() == RemoveOne(old(Now()), k)
      ensures hit <==> k in Keys(old(list))
      ensures !hit ==> Now() == old(Now())
    {
      var i := Present(k);
      hit := i < |list|;
      if hit {
        if list[i].handle == 0 {
          count := (count + U8 - 1) % U8;
          list := list[..i] + list[i + 1..];
        } else {
          list := list[i := list[i].(active := false)];
        }
      }
    }

    /** query: some entry was closed or opened. */
    method ManageStreams(answers: seq<Open>) returns (query: bool)
      modifies this
      ensures Now() == ManageFrom(old(Now()), 0, answers)
      ensures query <==> AsksFrom(old(Now()), 0, answers)
    {
      query := false;
      var i: nat, n: nat := 0, 0;
      while i < |list|
        invariant i <= |list| && n <= |answers|
        invariant ManageFrom(old(Now()), 0, answers) == ManageFrom(Now(), i, answers[n..])
        invariant AsksFrom(old(Now()), 0, answers) <==> query || AsksFrom(Now(), i, answers[n..])
        decreases |list| - i
      {
        assert n < |answers| ==> answers[n..][0] == answers[n] && answers[n..][1..] == answers[n + 1..];
        var changed;
        i, changed := ManageStream(i, if n < |answers| then answers[n] else Refused);
        query := query || changed;
        if n < |answers| { n := n + 1; }
      }
    }

    /** Entry i is closed and unlinked, opened, or left as it is; i' comes next. */
    method ManageStream(i: nat, o: Open) returns (i': nat, changed: bool)
      requires i < |list|
      modifies this
      ensures (Now(), i') == ManageOne(old(Now()), i, o)
      ensures changed <==> Asks(old(Now()), i, o)
    {
      i', changed := i, false;
      if !list[i].active {
        open := open - {list[i].handle};
        count := (count + U8 - 1) % U8;
        list := list[..i] + list[i + 1..];
        changed := true;
      } else {
        if list[i].handle == 0 && o.Opened? {
          open := open + {o.handle};
          list := list[i := list[i].(handle := o.handle)];
          changed := true;
        }
        i' := i + 1;
      }
    }

    method CleanStreams()
      modifies this
      ensures Now() == Clean(old(Now()))
    {
      ghost var closed: nat := 0;
      while |list| != 0
        invariant closed <= |old(list)| && list == old(list)[closed..]
        invariant count == if closed == 0 then old(count) else (old(count) + (U8 - 1) * closed) % U8
        invariant open == old(open) - Handles(old(list)[..closed])
        decreases |list|
      {
        ghost var before := old(list)[..closed];
        assert old(list)[..closed + 1] == before + [list[0]];
        HandlesSnoc(before, list[0]);
        CountDownMore(old(count), closed);
        open := open - {list[0].handle};
        count := (count + U8 - 1) % U8;
        list := list[1..];
        closed := closed + 1;
      }
      assert old(list)[..closed] == old(list);
    }
  }

  lemma CountDownMore(count: nat, k: nat)
    ensures ((count + (U8 - 1) * k) % U8 + U8 - 1) % U8 == (count + (U8 - 1) * (k + 1)) % U8
  {
    var n := count + (U8 - 1) * k;
    assert count + (U8 - 1) * (k + 1) == n + U8 - 1;
  }

  lemma HandlesSnoc(list: seq<Stream>, e: Stream)
    ensures Handles(list + [e]) == Handles(list) + {e.handle}
  {
    forall h ensures h in Handles(list + [e]) <==> h in Handles(list) || h == e.handle {
      if h in Handles(list) {
        var i :| 0 <= i < |list| && list[i].handle == h;
        assert (list + [e])[i].handle == h;
      }
      assert (list + [e])[|list|] == e;
    }
  }
}
