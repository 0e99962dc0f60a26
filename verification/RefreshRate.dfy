/**
 The refresh-rate table of msm_notifier.c: a list with one node per panel, filled in
 as displays report, against the map it stands for. Ids and rates are what the
 panel notifier delivers; the scheduler call is a log.
 */
module RefreshRate {
  datatype Node = Node(id: nat, fps: nat)
  datatype Call = Call(id: nat, rate: int)

  const EMPTY := Node(0, 0)
  const RATES := [30, 48, 60, 90, 120, 144]

  /** The scheduler rate for a reported one: the least supported rate that covers it. */
  function Ceiling(rate: int): (c: nat)
    ensures c in RATES
    ensures 0 < rate <= 144 ==> rate <= c && forall r :: r in RATES && rate <= r ==> c <= r
    ensures rate <= 0 ==> c == 60
    ensures rate > 144 ==> c == 144
  {
    if rate > 120 then 144
    else if rate > 90 then 120
    else if rate > 60 then 90
    else if rate > 48 then 60
    else if rate > 30 then 48
    else if rate > 0 then 30
    else 60
  }

  /** The node list after one callback, node by node; met is display_id_match. */
  function Walk(nodes: seq<Node>, id: nat, c: nat, met: bool): (r: seq<Node>)
    ensures |r| == |nodes|
  {
    if nodes == [] then [] else
      var claimed := if nodes[0].fps == 0 && !met then Node(id, c) else nodes[0];
      var here := claimed.id == id;
      [if here then Node(id, c) else claimed] + Walk(nodes[1..], id, c, met || here)
  }

  /** The greatest of floor and the rates in the list. */
  function Peak(nodes: seq<Node>, floor: nat): (p: nat)
    ensures p >= floor && (p == floor || exists i :: 0 <= i < |nodes| && nodes[i].fps == p)
    ensures forall i :: 0 <= i < |nodes| ==> nodes[i].fps <= p
  {
    if nodes == [] then floor else
      var last := nodes[|nodes| - 1];
      var p := Peak(nodes[..|nodes| - 1], floor);
      assert forall i :: 0 <= i < |nodes| - 1 ==> nodes[..|nodes| - 1][i] == nodes[i];
      assert last in nodes;
      if last.fps > p then last.fps else p
  }

  /** Node i is the one a display that has none yet takes. */
  ghost predicate Claims(nodes: seq<Node>, id: nat, met: bool, i: nat)
    requires i < |nodes|
  {
    !met && nodes[i].fps == 0 && forall j :: 0 <= j < i ==> nodes[j].id != id && nodes[j].fps != 0
  }

  /** Which nodes a callback writes, for any list at all. */
  lemma {:induction false} WalkAt(nodes: seq<Node>, id: nat, c: nat, met: bool, i: nat)
    requires i < |nodes|
    ensures Walk(nodes, id, c, met)[i] ==
            if nodes[i].id == id || Claims(nodes, id, met, i) then Node(id, c) else nodes[i]
  {
    if i > 0 {
      var here := nodes[0].id == id || (nodes[0].fps == 0 && !met);
      var rest := nodes[1..];
      WalkAt(rest, id, c, met || here, i - 1);
      assert Walk(nodes, id, c, met)[i] == Walk(rest, id, c, met || here)[i - 1];
      if Claims(nodes, id, met, i) {
        assert nodes[0].id != id && nodes[0].fps != 0;
        assert forall j :: 0 <= j < i - 1 ==> rest[j] == nodes[j + 1];
      }
      if Claims(rest, id, met || here, i - 1) {
        assert forall j :: 1 <= j < i ==> nodes[j] == rest[j - 1];
      }
    }
  }

  /** active_displays, and every rate given to the scheduler. */
  datatype Table = Table(nodes: seq<Node>, maxFps: nat, told: seq<nat>)

  function Probed(panels: nat): Table { Table(seq(panels, _ => EMPTY), 0, []) }

  function Callback(t: Table, call: Call): Table {
    var c := Ceiling(call.rate);
    var nodes := Walk(t.nodes, call.id, c, false);
    var p := Peak(nodes, c);
    Table(nodes, p, if p != t.maxFps then t.told + [p] else t.told)
  }

  function Front<T>(s: seq<T>): seq<T> requires s != [] { s[..|s| - 1] }
  function Last<T>(s: seq<T>): T requires s != [] { s[|s| - 1] }

  function Run(panels: nat, calls: seq<Call>): Table {
    if calls == [] then Probed(panels) else Callback(Run(panels, Front(calls)), Last(calls))
  }

  /** What the list stands for: the latest rate of every display that has reported. */
  function Latest(calls: seq<Call>): (m: map<nat, nat>)
    ensures forall id :: id in m ==> m[id] > 0
  {
    if calls == [] then map[] else Latest(Front(calls))[Last(calls).id := Ceiling(Last(calls).rate)]
  }

  /** One of the first k nodes is the display's. */
  ghost predicate Listed(nodes: seq<Node>, k: nat, id: nat) {
    exists i :: 0 <= i < k <= |nodes| && nodes[i].id == id
  }

  /** The nodes are the map: the first |m| hold its entries, each once, the others are
      still as probed. */
  ghost predicate Holds(nodes: seq<Node>, m: map<nat, nat>) { HoldsAt(nodes, m, |m|) }

  ghost predicate HoldsAt(nodes: seq<Node>, m: map<nat, nat>, k: nat) {
    && k <= |nodes|
    && (forall i :: 0 <= i < k ==> nodes[i].id in m && nodes[i].fps == m[nodes[i].id])
    && (forall i, j :: 0 <= i < j < k ==> nodes[i].id != nodes[j].id)
    && (forall id :: id in m ==> Listed(nodes, k, id))
    && (forall i :: k <= i < |nodes| ==> nodes[i] == EMPTY)
    && (0 in m ==> k == |nodes|)
  }

  /** A caller's check: the display is known, or a node is free for it; a display with
      id 0 looks like every free node, so it may only take the last one. */
  predicate HasRoom(m: map<nat, nat>, panels: nat, id: nat) {
    id in m || (|m| < panels && (id != 0 || |m| + 1 == panels))
  }

  /** A known display: its node alone is written. */
  lemma KnownDisplayWrites(nodes: seq<Node>, m: map<nat, nat>, id: nat, c: nat, p: nat, i: nat)
    requires Holds(nodes, m) && p < |m| && nodes[p].id == id && (forall d :: d in m ==> m[d] > 0)
    requires i < |nodes|
    ensures Walk(nodes, id, c, false)[i] == if i == p then Node(id, c) else nodes[i]
  {
    WalkAt(nodes, id, c, false, i);
    if i < |m| {
      assert nodes[i].fps > 0;
      assert i != p ==> nodes[i].id != nodes[p].id;
    }
  }

  lemma MapPutSize(m: map<nat, nat>, id: nat, c: nat)
    ensures |m[id := c]| == |m| + if id in m then 0 else 1
  {
    var n := m[id := c];
    assert n.Keys == m.Keys + {id};
    assert |n| == |n.Keys| && |m| == |m.Keys|;
  }

  lemma HoldsReplace(nodes: seq<Node>, r: seq<Node>, m: map<nat, nat>, k: nat, id: nat, c: nat, p: nat)
    requires HoldsAt(nodes, m, k) && p < k && nodes[p].id == id
    requires |r| == |nodes| && forall i :: 0 <= i < |nodes| ==> r[i] == if i == p then Node(id, c) else nodes[i]
    ensures HoldsAt(r, m[id := c], k)
  {
    SameIdsListed(nodes, r, k, m[id := c].Keys);
    forall i | 0 <= i < k ensures r[i].id in m[id := c] && r[i].fps == m[id := c][r[i].id] {
      if i < p { assert nodes[i].id != nodes[p].id; }
      if p < i { assert nodes[p].id != nodes[i].id; }
    }
    forall i, j | 0 <= i < j < k ensures r[i].id != r[j].id {
      assert nodes[i].id != nodes[j].id;
    }
  }

  lemma HoldsAppend(nodes: seq<Node>, r: seq<Node>, m: map<nat, nat>, k: nat, id: nat, c: nat)
    requires HoldsAt(nodes, m, k) && k < |nodes| && id !in m && (id == 0 ==> k + 1 == |nodes|)
    requires |r| == |nodes| && forall i :: 0 <= i < |nodes| ==> r[i] == if i == k then Node(id, c) else nodes[i]
    ensures HoldsAt(r, m[id := c], k + 1)
  {
    SameIdsListed(nodes, r, k, m.Keys);
    assert r[k].id == id;
    var n := m[id := c];
    forall d | d in n ensures Listed(r, k + 1, d) {
      assert d == id || Listed(r, k, d);
    }
    forall i, j | 0 <= i < j < k + 1 ensures r[i].id != r[j].id {
      assert r[i] == nodes[i] && nodes[i].id in m;
    }
  }

  lemma KnownDisplay(nodes: seq<Node>, m: map<nat, nat>, id: nat, c: nat)
    requires Holds(nodes, m) && id in m && c > 0 && forall d :: d in m ==> m[d] > 0
    ensures Holds(Walk(nodes, id, c, false), m[id := c])
  {
    assert Listed(nodes, |m|, id);
    var p :| 0 <= p < |m| && nodes[p].id == id;
    var r := Walk(nodes, id, c, false);
    forall i | 0 <= i < |nodes| ensures r[i] == if i == p then Node(id, c) else nodes[i] {
      KnownDisplayWrites(nodes, m, id, c, p, i);
    }
    HoldsReplace(nodes, r, m, |m|, id, c, p);
    MapPutSize(m, id, c);
  }

  lemma SameIdsListed(nodes: seq<Node>, r: seq<Node>, k: nat, ids: set<nat>)
    requires k <= |nodes| == |r| && (forall i :: 0 <= i < k ==> r[i].id == nodes[i].id)
    requires forall d :: d in ids ==> Listed(nodes, k, d)
    ensures forall d :: d in ids ==> Listed(r, k, d)
  {
    forall d | d in ids ensures Listed(r, k, d) {
      assert Listed(nodes, k, d);
      var i :| 0 <= i < k && nodes[i].id == d;
      assert r[i].id == d;
    }
  }

  /** A new display: the first free node is written, and for id 0 every free one. */
  lemma NewDisplayWrites(nodes: seq<Node>, m: map<nat, nat>, id: nat, c: nat, i: nat)
    requires Holds(nodes, m) && id !in m && i < |nodes| && forall d :: d in m ==> m[d] > 0
    ensures Walk(nodes, id, c, false)[i] ==
            if i < |m| then nodes[i] else if i == |m| || id == 0 then Node(id, c) else EMPTY
  {
    WalkAt(nodes, id, c, false, i);
    if i < |m| { assert nodes[i].id in m; }
    if i > |m| { assert nodes[|m|] == EMPTY; }
  }

  lemma NewDisplay(nodes: seq<Node>, m: map<nat, nat>, id: nat, c: nat)
    requires Holds(nodes, m) && id !in m && c > 0 && forall d :: d in m ==> m[d] > 0
    ensures Holds(Walk(nodes, id, c, false), m[id := c]) <==> HasRoom(m, |nodes|, id)
  {
    var r, k := Walk(nodes, id, c, false), |m|;
    MapPutSize(m, id, c);
    if HasRoom(m, |nodes|, id) {
      forall i | 0 <= i < |nodes| ensures r[i] == if i == k then Node(id, c) else nodes[i] {
        NewDisplayWrites(nodes, m, id, c, i);
      }
      HoldsAppend(nodes, r, m, k, id, c);
    } else if k < |nodes| {
      NewDisplayWrites(nodes, m, id, c, k + 1);
    }
  }

  /** One callback keeps the list equal to the map exactly when the display has room. */
  lemma CallbackHoldsIff(t: Table, m: map<nat, nat>, call: Call)
    requires Holds(t.nodes, m) && forall d :: d in m ==> m[d] > 0
    ensures Holds(Callback(t, call).nodes, m[call.id := Ceiling(call.rate)]) <==> HasRoom(m, |t.nodes|, call.id)
  {
    if call.id in m {
      KnownDisplay(t.nodes, m, call.id, Ceiling(call.rate));
    } else {
      NewDisplay(t.nodes, m, call.id, Ceiling(call.rate));
    }
  }

  /** The list has been the map after every callback so far. */
  ghost predicate AlwaysHeld(panels: nat, calls: seq<Call>) {
    && Holds(Run(panels, calls).nodes, Latest(calls))
    && (calls != [] ==> AlwaysHeld(panels, Front(calls)))
  }

  /** Every display had room when it reported. */
  predicate AlwaysRoom(panels: nat, calls: seq<Call>) {
    calls != [] ==> AlwaysRoom(panels, Front(calls)) && HasRoom(Latest(Front(calls)), panels, Last(calls).id)
  }

  lemma {:induction false} RunLength(panels: nat, calls: seq<Call>)
    ensures |Run(panels, calls).nodes| == panels
  {
    if calls != [] { RunLength(panels, Front(calls)); }
  }

  /** Over every run: the list keeps to the map exactly when every display found room. */
  lemma {:induction false} RunHoldsIff(panels: nat, calls: seq<Call>)
    ensures AlwaysHeld(panels, calls) <==> AlwaysRoom(panels, calls)
  {
    if calls != [] {
      var front := Front(calls);
      RunHoldsIff(panels, front);
      RunLength(panels, front);
      if AlwaysRoom(panels, front) {
        CallbackHoldsIff(Run(panels, front), Latest(front), Last(calls));
      }
    }
  }

  /** v is the greatest rate in m (0 when nothing has reported). */
  ghost predicate IsPeak(m: map<nat, nat>, v: nat) {
    && (forall id :: id in m ==> m[id] <= v)
    && (if m == map[] then v == 0 else exists id :: id in m && m[id] == v)
  }

  /** max_fps is the map's maximum after every run in which displays had room. */
  lemma MaxFpsIsPeak(panels: nat, calls: seq<Call>)
    requires AlwaysRoom(panels, calls)
    ensures IsPeak(Latest(calls), Run(panels, calls).maxFps)
  {
    RunHoldsIff(panels, calls);
    if calls != [] {
      var t, m, c := Run(panels, calls), Latest(calls), Ceiling(Last(calls).rate);
      forall id | id in m ensures m[id] <= t.maxFps {
        assert Listed(t.nodes, |m|, id);
        var i :| 0 <= i < |m| && t.nodes[i].id == id;
        assert t.nodes[i].fps <= t.maxFps;
      }
      if t.maxFps == c {
        assert m[Last(calls).id] == c;
      } else {
        var i :| 0 <= i < |t.nodes| && t.nodes[i].fps == t.maxFps;
        assert i < |m|;
      }
    }
  }

  /** The greatest rate in a map. */
  ghost function MapPeak(m: map<nat, nat>): nat {
    if m == map[] then 0 else
      var id :| id in m;
      var rest := MapPeak(m - {id});
      if m[id] > rest then m[id] else rest
  }

  lemma {:induction false} MapPeakIs(m: map<nat, nat>)
    ensures IsPeak(m, MapPeak(m))
    decreases |m|
  {
    if m != map[] {
      var id :| id in m && MapPeak(m) == (var rest := MapPeak(m - {id}); if m[id] > rest then m[id] else rest);
      var less := m - {id};
      assert |less.Keys| < |m.Keys| by { assert less.Keys == m.Keys - {id}; }
      MapPeakIs(less);
      assert forall d :: d in m ==> d == id || (d in less && less[d] == m[d]);
      if less != map[] {
        var d :| d in less && less[d] == MapPeak(less);
        assert d in m;
      }
    }
  }

  lemma PeakUnique(m: map<nat, nat>, v: nat)
    requires IsPeak(m, v)
    ensures v == MapPeak(m)
  {
    MapPeakIs(m);
  }

  /** What the scheduler should hear: the maximum of the latest rates after each
      callback, with repeats of the one before left out. */
  ghost function Announced(calls: seq<Call>): seq<nat> {
    if calls == [] then [] else
      var before, now := MapPeak(Latest(Front(calls))), MapPeak(Latest(calls));
      Announced(Front(calls)) + if now == before then [] else [now]
  }

  /** Displays having had room, it hears exactly that. */
  lemma {:induction false} ToldOnChange(panels: nat, calls: seq<Call>)
    requires AlwaysRoom(panels, calls)
    ensures Run(panels, calls).told == Announced(calls) && Run(panels, calls).maxFps == MapPeak(Latest(calls))
  {
    MaxFpsIsPeak(panels, calls);
    PeakUnique(Latest(calls), Run(panels, calls).maxFps);
    if calls != [] { ToldOnChange(panels, Front(calls)); }
  }

  /** On any run its view is max_fps, and no two calls in a row are the same. */
  lemma {:induction false} ToldIsMaxFps(panels: nat, calls: seq<Call>)
    ensures var t := Run(panels, calls);
      && (if t.told == [] then t.maxFps == 0 else Last(t.told) == t.maxFps)
      && (forall i :: 0 < i < |t.told| ==> t.told[i] != t.told[i - 1])
  {
    if calls != [] {
      var told, v := Run(panels, Front(calls)).told, Run(panels, calls).maxFps;
      ToldIsMaxFps(panels, Front(calls));
      if told == [] || Last(told) != v { LastIsNew(told, v); }
    }
  }

  lemma LastIsNew(told: seq<nat>, v: nat)
    requires forall i :: 0 < i < |told| ==> told[i] != told[i - 1]
    requires told != [] ==> Last(told) != v
    ensures forall i :: 0 < i < |told + [v]| ==> (told + [v])[i] != (told + [v])[i - 1]
  {
  }

  function Ids(calls: seq<Call>): (s: set<nat>)
    ensures s == set i | 0 <= i < |calls| :: calls[i].id
  {
    set i | 0 <= i < |calls| :: calls[i].id
  }

  lemma {:induction false} LatestKeys(calls: seq<Call>)
    ensures Latest(calls).Keys == Ids(calls)
  {
    if calls != [] {
      LatestKeys(Front(calls));
      assert Ids(calls) == Ids(Front(calls)) + {Last(calls).id} by {
        forall d | d in Ids(calls) ensures d in Ids(Front(calls)) + {Last(calls).id} {
          var i :| 0 <= i < |calls| && calls[i].id == d;
          if i < |calls| - 1 { assert Front(calls)[i].id == d; }
        }
        forall d | d in Ids(Front(calls)) ensures d in Ids(calls) {
          var i :| 0 <= i < |calls| - 1 && Front(calls)[i].id == d;
          assert calls[i].id == d;
        }
        assert calls[|calls| - 1].id in Ids(calls);
      }
    }
  }

  lemma SubsetSize<T>(a: set<T>, b: set<T>)
    requires a <= b
    ensures |a| <= |b| && (a != b ==> |a| < |b|)
  {
    assert b == a + (b - a);
    if a != b {
      assert |b - a| > 0 by { var x :| x in b - a; }
    }
  }

  /** Nonzero ids, no more of them than panels: what probe sets the driver up for. */
  lemma {:induction false} EnoughPanels(panels: nat, calls: seq<Call>)
    requires 0 !in Ids(calls) && |Ids(calls)| <= panels
    ensures AlwaysRoom(panels, calls)
    ensures Holds(Run(panels, calls).nodes, Latest(calls)) && IsPeak(Latest(calls), Run(panels, calls).maxFps)
  {
    if calls != [] {
      var front, id := Front(calls), Last(calls).id;
      assert Ids(front) <= Ids(calls) by {
        forall d | d in Ids(front) ensures d in Ids(calls) {
          var i :| 0 <= i < |front| && front[i].id == d;
          assert calls[i].id == d;
        }
      }
      assert id in Ids(calls) by { assert calls[|calls| - 1].id == id; }
      SubsetSize(Ids(front), Ids(calls));
      EnoughPanels(panels, front);
      LatestKeys(front);
      assert |Latest(front)| == |Latest(front).Keys|;
    }
    RunHoldsIff(panels, calls);
    MaxFpsIsPeak(panels, calls);
  }

  /** One panel, two displays: the second is counted once and then forgotten. */
  lemma ExtraDisplayForgotten()
    ensures var calls := [Call(1, 30), Call(2, 120), Call(1, 30)];
      && Run(1, calls).maxFps == 30 && Latest(calls) == map[1 := 30, 2 := 120]
      && Run(1, calls).told == [30, 120, 30]
  {
    var calls := [Call(1, 30), Call(2, 120), Call(1, 30)];
    assert Front(calls) == [Call(1, 30), Call(2, 120)];
    assert Front(Front(calls)) == [Call(1, 30)];
    assert Run(1, [Call(1, 30)]) == Table([Node(1, 30)], 30, [30]);
    assert Run(1, Front(calls)) == Table([Node(1, 30)], 120, [30, 120]);
  }

  lemma PeakMore(nodes: seq<Node>, node: Node, c: nat)
    ensures Peak(nodes + [node], c) == if node.fps > Peak(nodes, c) then node.fps else Peak(nodes, c)
  {
    var all := nodes + [node];
    assert all[..|all| - 1] == nodes && all[|all| - 1] == node;
  }

  /** One turn of the callback loop: node i becomes `node`, the others are still ahead. */
  lemma WalkStep(nodes: seq<Node>, i: nat, id: nat, c: nat, met: bool, node: Node, met': bool)
    requires i < |nodes|
    requires var claimed := if nodes[i].fps == 0 && !met then Node(id, c) else nodes[i];
             met' == (met || claimed.id == id) && node == if claimed.id == id then Node(id, c) else claimed
    ensures nodes[..i] + Walk(nodes[i..], id, c, met) == nodes[..i] + [node] + Walk(nodes[i + 1..], id, c, met')
  {
    var rest, tail := nodes[i..], Walk(nodes[i + 1..], id, c, met');
    assert rest[0] == nodes[i] && rest[1..] == nodes[i + 1..];
    assert Walk(rest, id, c, met) == [node] + tail;
    assert nodes[..i] + ([node] + tail) == nodes[..i] + [node] + tail;
  }

  /** msm_notifier_fps_chg_callback over the list, as the driver holds it. */
  class ActiveDisplays {
    var nodes: seq<Node>
    var maxFps: nat
    var told: seq<nat>

    function Value(): Table reads this { Table(nodes, maxFps, told) }

    constructor (panels: nat)
      ensures Value() == Probed(panels)
    {
      nodes, maxFps, told := seq(panels, _ => EMPTY), 0, [];
    }

    /** The loop body at node i. */
    method Visit(i: nat, call: Call, c: nat, met: bool, peak: nat) returns (met': bool, peak': nat)
      requires i < |nodes| && peak == Peak(nodes[..i], c)
      modifies `nodes
      ensures |nodes| == |old(nodes)| && nodes[i + 1..] == old(nodes)[i + 1..]
      ensures nodes[..i + 1] + Walk(nodes[i + 1..], call.id, c, met')
           == old(nodes)[..i] + Walk(old(nodes)[i..], call.id, c, met)
      ensures peak' == Peak(nodes[..i + 1], c)
    {
      var node := nodes[i];
      if node.fps == 0 && !met { node := Node(call.id, c); }
      met' := met;
      if node.id == call.id { met', node := true, Node(call.id, c); }
      WalkStep(nodes, i, call.id, c, met, node, met');
      PeakMore(nodes[..i], node, c);
      nodes := nodes[i := node];
      peak' := if node.fps > peak then node.fps else peak;
      assert nodes[..i + 1] == old(nodes)[..i] + [node] && nodes[i + 1..] == old(nodes)[i + 1..];
    }

    method FpsChanged(call: Call)
      modifies this
      ensures Value() == Callback(old(Value()), call)
    {
      var c, met, peak, i := Ceiling(call.rate), false, Ceiling(call.rate), 0;
      ghost var target := Walk(nodes, call.id, c, false);
      while i < |nodes|
        invariant 0 <= i <= |nodes| && maxFps == old(maxFps) && told == old(told)
        invariant target == nodes[..i] + Walk(nodes[i..], call.id, c, met)
        invariant peak == Peak(nodes[..i], c)
      {
        met, peak := Visit(i, call, c, met, peak);
        i := i + 1;
      }
      assert nodes == target && nodes[..i] == nodes;
      if peak != maxFps {
        maxFps := peak;
        told := told + [peak];
      }
    }
  }
}
