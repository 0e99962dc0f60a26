/**
 The event registry of msm_drv.c: clients register per (event, object), the
 display core is told to enable a pair for its first client and to disable it
 after the last one. Each ioctl and each release is one step.
 */
module EventRegistry {
  import opened Common

  datatype Pair = Pair(event: nat, obj: nat)
  datatype Node = Node(file: nat, pair: Pair)
  datatype Rc = Ok | Unsupported | Already | NoMem | NoEnt | CallFailed

  /** A call into the display core that took effect. */
  datatype Call = Enable(pair: Pair) | Disable(pair: Pair)

  datatype Registry = Registry(nodes: seq<Node>, calls: seq<Call>)

  // ---------- The display core's view ----------

  /** The pairs that are enabled after a sequence of calls. */
  function On(calls: seq<Call>): set<Pair> {
    if calls == [] then {}
    else
      var before, c := On(calls[..|calls| - 1]), calls[|calls| - 1];
      if c.Enable? then before + {c.pair} else before - {c.pair}
  }

  /** Per pair, enables and disables strictly alternate, an enable first. */
  predicate Alternating(calls: seq<Call>) {
    calls == [] ||
    var before, c := calls[..|calls| - 1], calls[|calls| - 1];
    Alternating(before) && (c.Enable? <==> c.pair !in On(before))
  }

  function Tell(calls: seq<Call>, c: Call): seq<Call> { calls + [c] }

  lemma TellOn(calls: seq<Call>, c: Call)
    ensures On(Tell(calls, c)) == if c.Enable? then On(calls) + {c.pair} else On(calls) - {c.pair}
    ensures Alternating(Tell(calls, c)) <==> Alternating(calls) && (c.Enable? <==> c.pair !in On(calls))
  {
    assert Tell(calls, c)[..|calls|] == calls;
  }

  // ---------- The client list ----------

  /** msm_event_client_count. */
  function CountOf(nodes: seq<Node>, p: Pair): nat {
    if nodes == [] then 0
    else CountOf(nodes[..|nodes| - 1], p) + if nodes[|nodes| - 1].pair == p then 1 else 0
  }

  ghost predicate Named(nodes: seq<Node>, p: Pair) { exists i :: 0 <= i < |nodes| && nodes[i].pair == p }

  lemma {:induction false} CountIsNamed(nodes: seq<Node>, p: Pair)
    ensures CountOf(nodes, p) > 0 <==> Named(nodes, p)
  {
    if nodes != [] {
      var n := |nodes| - 1;
      CountIsNamed(nodes[..n], p);
      assert forall i :: 0 <= i < n ==> nodes[..n][i] == nodes[i];
    }
  }

  function Find(nodes: seq<Node>, n: Node): (i: nat)
    ensures i <= |nodes| && (i < |nodes| ==> nodes[i] == n) && forall k :: 0 <= k < i ==> nodes[k] != n
  {
    if nodes == [] || nodes[0] == n then 0 else Find(nodes[1..], n) + 1
  }

  function Mine(nodes: seq<Node>, file: nat): (ms: seq<Node>)
    ensures forall n :: n in ms <==> n in nodes && n.file == file
  {
    if nodes == [] then []
    else Mine(nodes[..|nodes| - 1], file) + if nodes[|nodes| - 1].file == file then [nodes[|nodes| - 1]] else []
  }

  function Others(nodes: seq<Node>, file: nat): (os: seq<Node>)
    ensures forall n :: n in os <==> n in nodes && n.file != file
  {
    if nodes == [] then []
    else Others(nodes[..|nodes| - 1], file) + if nodes[|nodes| - 1].file != file then [nodes[|nodes| - 1]] else []
  }

  // ---------- The three steps ----------

  function Register(r: Registry, n: Node, supported: bool, memOk: bool, enableOk: bool): (Registry, Rc) {
    if !supported then (r, Unsupported)
    else if n in r.nodes then (r, Already)
    else if !memOk then (r, NoMem)
    else if CountOf(r.nodes, n.pair) > 0 then (r.(nodes := r.nodes + [n]), Ok)
    else if enableOk then (Registry(r.nodes + [n], Tell(r.calls, Enable(n.pair))), Ok)
    else (r, CallFailed)
  }

  function Deregister(r: Registry, n: Node, supported: bool, disableOk: bool): (Registry, Rc) {
    if !supported then (r, Unsupported)
    else if n !in r.nodes then (r, NoEnt)
    else
      var rest := Without(r.nodes, Find(r.nodes, n));
      if CountOf(rest, n.pair) > 0 then (r.(nodes := rest), Ok)
      else if disableOk then (Registry(rest, Tell(r.calls, Disable(n.pair))), Ok)
      else (r.(nodes := rest), CallFailed)
  }

  /** The loop of msm_release over the nodes it took off the list; the second
      count is the one over the nodes still on the temporary list. */
  function ReleaseLoop(others: seq<Node>, mine: seq<Node>, calls: seq<Call>, oks: seq<bool>): seq<Call>
    decreases |mine|
  {
    if mine == [] then calls
    else
      var p, rest := mine[0].pair, mine[1..];
      var last := CountOf(others, p) + CountOf(rest, p) == 0;
      ReleaseLoop(others, rest,
                  if last && oks != [] && oks[0] then Tell(calls, Disable(p)) else calls,
                  if oks == [] then [] else oks[1..])
  }

  function Release(r: Registry, file: nat, oks: seq<bool>): Registry {
    Registry(Others(r.nodes, file), ReleaseLoop(Others(r.nodes, file), Mine(r.nodes, file), r.calls, oks))
  }

  // ---------- Invariant ----------

  ghost predicate InSync(r: Registry) { forall p :: p in On(r.calls) <==> Named(r.nodes, p) }

  ghost predicate Inv(r: Registry) { InSync(r) && Distinct(r.nodes) && Alternating(r.calls) }

  /** The enabled pairs are the named ones and the stuck ones, which nobody names. */
  ghost predicate OnBut(calls: seq<Call>, nodes: seq<Node>, stuck: set<Pair>) {
    (forall p :: p in On(calls) <==> Named(nodes, p) || p in stuck) && forall p :: p in stuck ==> !Named(nodes, p)
  }

  lemma NamedPlus(nodes: seq<Node>, n: Node, p: Pair)
    ensures Named(nodes + [n], p) <==> Named(nodes, p) || p == n.pair
  {
    var all := nodes + [n];
    assert all[|nodes|] == n && forall i :: 0 <= i < |nodes| ==> all[i] == nodes[i];
  }

  lemma RegisterInv(r: Registry, n: Node, supported: bool, memOk: bool, enableOk: bool)
    requires Inv(r)
    ensures Inv(Register(r, n, supported, memOk, enableOk).0)
  {
    CountIsNamed(r.nodes, n.pair);
    forall p ensures Named(r.nodes + [n], p) <==> Named(r.nodes, p) || p == n.pair { NamedPlus(r.nodes, n, p); }
    TellOn(r.calls, Enable(n.pair));
  }

  lemma NamedWithout(nodes: seq<Node>, i: nat, p: Pair)
    requires i < |nodes|
    ensures Named(nodes, p) <==> nodes[i].pair == p || Named(Without(nodes, i), p)
  {
    var rest := Without(nodes, i);
    if Named(rest, p) {
      var j :| 0 <= j < |rest| && rest[j].pair == p;
      assert nodes[if j < i then j else j + 1].pair == p;
    }
    if Named(nodes, p) && nodes[i].pair != p {
      var j :| 0 <= j < |nodes| && nodes[j].pair == p;
      assert rest[if j < i then j else j - 1].pair == p;
    }
  }

  lemma DistinctWithout(nodes: seq<Node>, i: nat)
    requires Distinct(nodes) && i < |nodes|
    ensures Distinct(Without(nodes, i))
  {
  }

  /** Deregistering keeps nodes distinct and calls alternating in any case, and
      keeps the display core in step exactly unless the pair's last client leaves and
      the disable fails. */
  lemma DeregisterInvIff(r: Registry, n: Node, supported: bool, disableOk: bool)
    requires Inv(r)
    ensures var r' := Deregister(r, n, supported, disableOk).0;
            && Distinct(r'.nodes) && Alternating(r'.calls)
            && (InSync(r') <==> !(supported && n in r.nodes) || disableOk ||
                                Named(Without(r.nodes, Find(r.nodes, n)), n.pair))
  {
    if supported && n in r.nodes {
      var i := Find(r.nodes, n);
      var rest := Without(r.nodes, i);
      DistinctWithout(r.nodes, i);
      CountIsNamed(rest, n.pair);
      TellOn(r.calls, Disable(n.pair));
      forall p ensures Named(r.nodes, p) <==> p == n.pair || Named(rest, p) { NamedWithout(r.nodes, i, p); }
      var r' := Deregister(r, n, supported, disableOk).0;
      if !Named(rest, n.pair) && !disableOk {
        assert n.pair in On(r'.calls) && !Named(r'.nodes, n.pair);
      }
    }
  }

  lemma {:induction false} MineDistinct(nodes: seq<Node>, file: nat)
    requires Distinct(nodes)
    ensures Distinct(Mine(nodes, file)) && Distinct(Others(nodes, file))
  {
    if nodes != [] { MineDistinct(nodes[..|nodes| - 1], file); }
  }

  /** No file holds a pair twice, so the recount over the temporary list is zero. */
  lemma RecountIsZero(mine: seq<Node>, file: nat)
    requires mine != [] && Distinct(mine) && forall n :: n in mine ==> n.file == file
    ensures CountOf(mine[1..], mine[0].pair) == 0
  {
    CountIsNamed(mine[1..], mine[0].pair);
    forall i | 0 <= i < |mine| - 1 ensures mine[1..][i].pair != mine[0].pair {
      assert mine[0] in mine && mine[i + 1] in mine && mine[1..][i] == mine[i + 1];
    }
  }

  predicate Succeeds(oks: seq<bool>) { oks != [] && oks[0] }

  /** The pairs whose last client leaves in the loop while their disable fails. */
  function FailedPairs(others: seq<Node>, mine: seq<Node>, oks: seq<bool>): set<Pair>
    decreases |mine|
  {
    if mine == [] then {}
    else
      var p, rest := mine[0].pair, mine[1..];
      (if CountOf(others, p) + CountOf(rest, p) == 0 && !Succeeds(oks) then {p} else {}) +
      FailedPairs(others, rest, if oks == [] then [] else oks[1..])
  }

  /** One turn of the loop: the pair stays named, is disabled, or gets stuck. */
  lemma ReleaseTurn(others: seq<Node>, mine: seq<Node>, calls: seq<Call>, ok: bool, stuck: set<Pair>)
    requires mine != [] && OnBut(calls, others + mine, stuck)
    ensures var p := mine[0].pair;
            var last := CountOf(others, p) + CountOf(mine[1..], p) == 0;
            var calls' := if last && ok then Tell(calls, Disable(p)) else calls;
            && OnBut(calls', others + mine[1..], if last && !ok then stuck + {p} else stuck)
            && (Alternating(calls') <==> Alternating(calls))
  {
    var p0, rest := mine[0].pair, mine[1..];
    CountIsNamed(others, p0);
    CountIsNamed(rest, p0);
    TellOn(calls, Disable(p0));
    assert Without(mine, 0) == rest;
    forall p ensures Named(others + mine, p) <==> Named(others + rest, p) || p == p0 {
      NamedWithout(mine, 0, p);
      NamedBoth(others, mine, p);
      NamedBoth(others, rest, p);
    }
    NamedBoth(others, rest, p0);
  }

  lemma NamedBoth(a: seq<Node>, b: seq<Node>, p: Pair)
    ensures Named(a + b, p) <==> Named(a, p) || Named(b, p)
  {
    var all := a + b;
    assert forall i :: 0 <= i < |a| ==> all[i] == a[i];
    assert forall i :: 0 <= i < |b| ==> all[|a| + i] == b[i];
    assert forall i :: |a| <= i < |all| ==> all[i] == b[i - |a|];
  }

  /** The whole loop, whichever disables fail. */
  lemma {:induction false} ReleaseLoopExact(
      others: seq<Node>, mine: seq<Node>, calls: seq<Call>, oks: seq<bool>, stuck: set<Pair>)
    requires OnBut(calls, others + mine, stuck)
    ensures OnBut(ReleaseLoop(others, mine, calls, oks), others, stuck + FailedPairs(others, mine, oks))
    ensures Alternating(ReleaseLoop(others, mine, calls, oks)) <==> Alternating(calls)
    decreases |mine|
  {
    if mine == [] {
      assert others + mine == others && stuck + {} == stuck;
    } else {
      var p, rest, ok, oks' := mine[0].pair, mine[1..], Succeeds(oks), if oks == [] then [] else oks[1..];
      var last := CountOf(others, p) + CountOf(rest, p) == 0;
      ReleaseTurn(others, mine, calls, ok, stuck);
      var stuck' := if last && !ok then stuck + {p} else stuck;
      ReleaseLoopExact(others, rest, if last && ok then Tell(calls, Disable(p)) else calls, oks', stuck');
      assert stuck' + FailedPairs(others, rest, oks') == stuck + FailedPairs(others, mine, oks);
    }
  }

  lemma NamedSplit(nodes: seq<Node>, file: nat, p: Pair)
    ensures Named(Others(nodes, file) + Mine(nodes, file), p) <==> Named(nodes, p)
  {
    var both := Others(nodes, file) + Mine(nodes, file);
    if Named(nodes, p) {
      var i :| 0 <= i < |nodes| && nodes[i].pair == p;
      assert nodes[i] in nodes;
      assert nodes[i] in both;
      var j :| 0 <= j < |both| && both[j] == nodes[i];
    }
    if Named(both, p) {
      var i :| 0 <= i < |both| && both[i].pair == p;
      assert both[i] in both;
      assert both[i] in nodes;
      var j :| 0 <= j < |nodes| && nodes[j] == both[i];
    }
  }

  lemma ReleaseExact(r: Registry, file: nat, oks: seq<bool>, stuck: set<Pair>)
    requires OnBut(r.calls, r.nodes, stuck) && Distinct(r.nodes)
    ensures var r' := Release(r, file, oks);
            && OnBut(r'.calls, r'.nodes, stuck + FailedPairs(Others(r.nodes, file), Mine(r.nodes, file), oks))
            && Distinct(r'.nodes) && (Alternating(r'.calls) <==> Alternating(r.calls))
  {
    var others, mine := Others(r.nodes, file), Mine(r.nodes, file);
    MineDistinct(r.nodes, file);
    forall p ensures Named(others + mine, p) <==> Named(r.nodes, p) { NamedSplit(r.nodes, file, p); }
    ReleaseLoopExact(others, mine, r.calls, oks, stuck);
  }

  /** Of a file's nodes, which name distinct pairs, a pair fails exactly when no other
      file names it and its disable does not succeed. */
  lemma {:induction false} FailedPairsIff(others: seq<Node>, mine: seq<Node>, oks: seq<bool>, file: nat)
    requires Distinct(mine) && forall n :: n in mine ==> n.file == file
    ensures FailedPairs(others, mine, oks) == {} <==> DueSucceed(others, mine, oks)
    decreases |mine|
  {
    if mine != [] {
      var rest := mine[1..];
      RecountIsZero(mine, file);
      CountIsNamed(others, mine[0].pair);
      assert forall n :: n in rest ==> n in mine;
      FailedPairsIff(others, rest, if oks == [] then [] else oks[1..], file);
      DueCons(others, mine, oks);
    }
  }

  /** Every node's pair is named elsewhere, or its disable succeeds. */
  ghost predicate DueSucceed(others: seq<Node>, mine: seq<Node>, oks: seq<bool>) {
    forall k :: 0 <= k < |mine| ==> Named(others, mine[k].pair) || (k < |oks| && oks[k])
  }

  lemma DueCons(others: seq<Node>, mine: seq<Node>, oks: seq<bool>)
    requires mine != []
    ensures DueSucceed(others, mine, oks) <==>
            (Named(others, mine[0].pair) || Succeeds(oks)) &&
            DueSucceed(others, mine[1..], if oks == [] then [] else oks[1..])
  {
    var rest, oks' := mine[1..], if oks == [] then [] else oks[1..];
    if DueSucceed(others, mine, oks) {
      forall k | 0 <= k < |rest| ensures Named(others, rest[k].pair) || (k < |oks'| && oks'[k]) {
        assert rest[k] == mine[k + 1];
      }
    }
    if (Named(others, mine[0].pair) || Succeeds(oks)) && DueSucceed(others, rest, oks') {
      forall k | 0 <= k < |mine| ensures Named(others, mine[k].pair) || (k < |oks| && oks[k]) {
        if k > 0 { assert mine[k] == rest[k - 1]; }
      }
    }
  }

  /** Closing a file keeps nodes distinct and calls alternating in any case, and the
      display core in step exactly when every disable that is due succeeds. */
  lemma ReleaseInvIff(r: Registry, file: nat, oks: seq<bool>)
    requires Inv(r)
    ensures var r', mine := Release(r, file, oks), Mine(r.nodes, file);
            && Distinct(r'.nodes) && Alternating(r'.calls)
            && (InSync(r') <==> DueSucceed(Others(r.nodes, file), mine, oks))
  {
    var others, mine := Others(r.nodes, file), Mine(r.nodes, file);
    ReleaseExact(r, file, oks, {});
    MineDistinct(r.nodes, file);
    FailedPairsIff(others, mine, oks, file);
    var r', failed := Release(r, file, oks), FailedPairs(others, mine, oks);
    assert {} + failed == failed;
    if p :| p in failed { assert p in On(r'.calls) && !Named(r'.nodes, p); }
  }

  // ---------- Who is registered ----------

  /** A register is answered Ok exactly when the client is appended, and the list is
      left alone otherwise; each failure has its own answer. */
  lemma RegisterAnswers(r: Registry, n: Node, supported: bool, memOk: bool, enableOk: bool)
    ensures var (r', rc) := Register(r, n, supported, memOk, enableOk);
            && (rc == Ok ==> n !in r.nodes && r'.nodes == r.nodes + [n])
            && (rc != Ok ==> r' == r)
            && rc == if !supported then Unsupported else if n in r.nodes then Already else if !memOk then NoMem
                     else if Named(r.nodes, n.pair) || enableOk then Ok else CallFailed
  {
    CountIsNamed(r.nodes, n.pair);
  }

  /** A deregister removes exactly that client whenever it was listed, whatever the
      disable answers. */
  lemma DeregisterAnswers(r: Registry, n: Node, supported: bool, disableOk: bool)
    requires Distinct(r.nodes)
    ensures var (r', rc) := Deregister(r, n, supported, disableOk);
            && (forall x :: x in r'.nodes <==> x in r.nodes && !(supported && x == n))
            && (rc == Unsupported <==> !supported) && (rc == NoEnt <==> supported && n !in r.nodes)
            && (rc == CallFailed <==> supported && n in r.nodes && !Named(r'.nodes, n.pair) && !disableOk)
  {
    if supported && n in r.nodes {
      var i := Find(r.nodes, n);
      var rest := Without(r.nodes, i);
      CountIsNamed(rest, n.pair);
      MembersWithout(r.nodes, i);
    }
  }

  lemma MembersWithout(nodes: seq<Node>, i: nat)
    requires Distinct(nodes) && i < |nodes|
    ensures forall x :: x in Without(nodes, i) <==> x in nodes && x != nodes[i]
  {
    var rest := Without(nodes, i);
    assert forall k :: 0 <= k < i ==> rest[k] == nodes[k];
    assert forall k :: i <= k < |rest| ==> rest[k] == nodes[k + 1];
    forall x | x in nodes && x != nodes[i] ensures x in rest {
      var k :| 0 <= k < |nodes| && nodes[k] == x;
      assert rest[if k < i then k else k - 1] == x;
    }
  }

  // ---------- Every run ----------

  datatype Step =
    | SRegister(node: Node, supported: bool, memOk: bool, enableOk: bool)
    | SDeregister(node: Node, supported: bool, disableOk: bool)
    | SRelease(file: nat, oks: seq<bool>)

  function Do(r: Registry, s: Step): Registry {
    match s
    case SRegister(n, sup, mem, en) => Register(r, n, sup, mem, en).0
    case SDeregister(n, sup, ok) => Deregister(r, n, sup, ok).0
    case SRelease(f, oks) => Release(r, f, oks)
  }

  function Run(r: Registry, steps: seq<Step>): Registry
    decreases |steps|
  {
    if steps == [] then r else Run(Do(r, steps[0]), steps[1..])
  }

  /** A register that turns its pair on. */
  predicate Enables(r: Registry, s: Step) {
    && s.SRegister? && s.supported && s.node !in r.nodes && s.memOk && s.enableOk
    && CountOf(r.nodes, s.node.pair) == 0
  }

  /** A deregister of a pair's last client whose disable fails. */
  predicate Strands(r: Registry, s: Step) {
    && s.SDeregister? && s.supported && s.node in r.nodes && !s.disableOk
    && CountOf(Without(r.nodes, Find(r.nodes, s.node)), s.node.pair) == 0
  }

  /** Pairs left on by a failed disable and not enabled again since. */
  function StuckAfter(r: Registry, stuck: set<Pair>, s: Step): set<Pair> {
    if Enables(r, s) then stuck - {s.node.pair}
    else if Strands(r, s) then stuck + {s.node.pair}
    else if s.SRelease? then stuck + FailedPairs(Others(r.nodes, s.file), Mine(r.nodes, s.file), s.oks)
    else stuck
  }

  function Stuck(r: Registry, stuck: set<Pair>, steps: seq<Step>): set<Pair>
    decreases |steps|
  {
    if steps == [] then stuck else Stuck(Do(r, steps[0]), StuckAfter(r, stuck, steps[0]), steps[1..])
  }

  /** Some pair is enabled while it is stuck. */
  predicate Repeats(r: Registry, stuck: set<Pair>, steps: seq<Step>)
    decreases |steps|
  {
    steps != [] &&
    ((Enables(r, steps[0]) && steps[0].node.pair in stuck) ||
     Repeats(Do(r, steps[0]), StuckAfter(r, stuck, steps[0]), steps[1..]))
  }

  lemma RegisterExact(r: Registry, s: Step, stuck: set<Pair>)
    requires s.SRegister? && OnBut(r.calls, r.nodes, stuck) && Distinct(r.nodes)
    ensures var r' := Do(r, s);
            && OnBut(r'.calls, r'.nodes, StuckAfter(r, stuck, s)) && Distinct(r'.nodes)
            && (Alternating(r'.calls) <==> Alternating(r.calls) && !(Enables(r, s) && s.node.pair in stuck))
  {
    var n := s.node;
    CountIsNamed(r.nodes, n.pair);
    forall p ensures Named(r.nodes + [n], p) <==> Named(r.nodes, p) || p == n.pair { NamedPlus(r.nodes, n, p); }
    TellOn(r.calls, Enable(n.pair));
  }

  lemma DeregisterExact(r: Registry, s: Step, stuck: set<Pair>)
    requires s.SDeregister? && OnBut(r.calls, r.nodes, stuck) && Distinct(r.nodes)
    ensures var r' := Do(r, s);
            && OnBut(r'.calls, r'.nodes, StuckAfter(r, stuck, s)) && Distinct(r'.nodes)
            && (Alternating(r'.calls) <==> Alternating(r.calls))
  {
    var n := s.node;
    if s.supported && n in r.nodes {
      var i := Find(r.nodes, n);
      var rest := Without(r.nodes, i);
      DistinctWithout(r.nodes, i);
      CountIsNamed(rest, n.pair);
      TellOn(r.calls, Disable(n.pair));
      forall p ensures Named(r.nodes, p) <==> p == n.pair || Named(rest, p) { NamedWithout(r.nodes, i, p); }
    }
  }

  lemma DoExact(r: Registry, s: Step, stuck: set<Pair>)
    requires OnBut(r.calls, r.nodes, stuck) && Distinct(r.nodes)
    ensures var r' := Do(r, s);
            && OnBut(r'.calls, r'.nodes, StuckAfter(r, stuck, s)) && Distinct(r'.nodes)
            && (Alternating(r'.calls) <==> Alternating(r.calls) && !(Enables(r, s) && s.node.pair in stuck))
  {
    match s
    case SRegister(_, _, _, _) => RegisterExact(r, s, stuck);
    case SDeregister(_, _, _) => DeregisterExact(r, s, stuck);
    case SRelease(f, oks) => ReleaseExact(r, f, oks, stuck);
  }

  /** In every run, whatever fails: the enabled pairs are exactly those some client
      names and those a failed disable left stuck; calls alternate per pair exactly
      unless a stuck pair is enabled again; no file holds a pair twice. */
  lemma {:induction false} RunExact(r: Registry, stuck: set<Pair>, steps: seq<Step>)
    requires OnBut(r.calls, r.nodes, stuck) && Distinct(r.nodes)
    ensures var r' := Run(r, steps);
            && OnBut(r'.calls, r'.nodes, Stuck(r, stuck, steps)) && Distinct(r'.nodes)
            && (Alternating(r'.calls) <==> Alternating(r.calls) && !Repeats(r, stuck, steps))
    decreases |steps|
  {
    if steps != [] {
      DoExact(r, steps[0], stuck);
      RunExact(Do(r, steps[0]), StuckAfter(r, stuck, steps[0]), steps[1..]);
    }
  }

  /** Nothing got stuck: the registry and the display core agree on every pair. */
  lemma RunInvIff(steps: seq<Step>)
    ensures var r, stuck := Run(Registry([], []), steps), Stuck(Registry([], []), {}, steps);
            InSync(r) <==> stuck == {}
  {
    RunExact(Registry([], []), {}, steps);
    var r, stuck := Run(Registry([], []), steps), Stuck(Registry([], []), {}, steps);
    if p :| p in stuck { assert p in On(r.calls) && !Named(r.nodes, p); }
  }

  /** The shortest such run: one client registers and leaves, and the disable fails. */
  lemma FailedDisableSticks(n: Node)
    ensures var steps := [SRegister(n, true, true, true), SDeregister(n, true, false)];
      var r := Run(Registry([], []), steps);
      r.nodes == [] && r.calls == [Enable(n.pair)] && On(r.calls) == {n.pair} && !InSync(r)
  {
    var reg, dereg := SRegister(n, true, true, true), SDeregister(n, true, false);
    var r1 := Do(Registry([], []), reg);
    assert [reg, dereg][1..] == [dereg] && [dereg][1..] == [];
    assert CountOf([], n.pair) == 0 && r1 == Registry([n], [Enable(n.pair)]);
    assert n in [n] && Without([n], 0) == [];
    var r := Do(r1, dereg);
    assert Run(Registry([], []), [reg, dereg]) == Run(r1, [dereg]) == Run(r, []) == r;
    assert [Enable(n.pair)][..0] == [];
    assert n.pair in On(r.calls) && !Named(r.nodes, n.pair);
  }

  /** The clients whose register was answered Ok and that have not been taken off since,
      by a deregister of their own or the release of their file. */
  function Holding(r: Registry, held: set<Node>, steps: seq<Step>): set<Node>
    decreases |steps|
  {
    if steps == [] then held
    else Holding(Do(r, steps[0]), HeldAfter(r, held, steps[0]), steps[1..])
  }

  function HeldAfter(r: Registry, held: set<Node>, s: Step): set<Node> {
    match s
    case SRegister(n, sup, mem, en) => if Register(r, n, sup, mem, en).1 == Ok then held + {n} else held
    case SDeregister(n, sup, ok) => if sup then held - {n} else held
    case SRelease(f, oks) => set n | n in held && n.file != f
  }

  /** In every run the list holds exactly those clients. */
  lemma {:induction false} RunHolding(r: Registry, stuck: set<Pair>, held: set<Node>, steps: seq<Step>)
    requires OnBut(r.calls, r.nodes, stuck) && Distinct(r.nodes) && forall n :: n in r.nodes <==> n in held
    ensures forall n :: n in Run(r, steps).nodes <==> n in Holding(r, held, steps)
    decreases |steps|
  {
    if steps != [] {
      HeldStep(r, held, steps[0]);
      DoExact(r, steps[0], stuck);
      RunHolding(Do(r, steps[0]), StuckAfter(r, stuck, steps[0]), HeldAfter(r, held, steps[0]), steps[1..]);
    }
  }

  lemma HeldStep(r: Registry, held: set<Node>, s: Step)
    requires Distinct(r.nodes) && forall n :: n in r.nodes <==> n in held
    ensures forall n :: n in Do(r, s).nodes <==> n in HeldAfter(r, held, s)
  {
    match s
    case SRegister(n, sup, mem, en) => RegisterAnswers(r, n, sup, mem, en);
    case SDeregister(n, sup, ok) => DeregisterAnswers(r, n, sup, ok);
    case SRelease(f, oks) =>
  }

  lemma RunHoldingFromStart(steps: seq<Step>)
    ensures forall n :: n in Run(Registry([], []), steps).nodes <==> n in Holding(Registry([], []), {}, steps)
  {
    RunHolding(Registry([], []), {}, {}, steps);
  }

  predicate DisablesSucceed(s: Step) {
    (s.SDeregister? ==> s.disableOk) && (s.SRelease? ==> forall k :: 0 <= k < |s.oks| ==> s.oks[k])
  }

  /** Enough answers for every node of the file. */
  predicate Answered(r: Registry, s: Step) { s.SRelease? ==> |s.oks| >= |Mine(r.nodes, s.file)| }

  predicate AllAnswered(r: Registry, steps: seq<Step>)
    decreases |steps|
  {
    steps == [] || (DisablesSucceed(steps[0]) && Answered(r, steps[0]) && AllAnswered(Do(r, steps[0]), steps[1..]))
  }

  /** With disables that succeed: in every run a pair is enabled exactly while some
      client names it, enable and disable calls strictly alternate per pair, and no
      file holds a pair twice. */
  lemma {:induction false} RunInv(r: Registry, steps: seq<Step>)
    requires Inv(r) && AllAnswered(r, steps)
    ensures Inv(Run(r, steps))
    decreases |steps|
  {
    if steps != [] {
      match steps[0] {
        case SRegister(n, sup, mem, en) => RegisterInv(r, n, sup, mem, en);
        case SDeregister(n, sup, ok) => DeregisterInvIff(r, n, sup, ok);
        case SRelease(f, oks) => ReleaseInvIff(r, f, oks);
      }
      RunInv(Do(r, steps[0]), steps[1..]);
    }
  }

  // ---------- The imperative code ----------

  class Registrar {
    var nodes: seq<Node>
    var calls: seq<Call>

    ghost function Now(): Registry reads this { Registry(nodes, calls) }

    constructor ()
      ensures Now() == Registry([], [])
    {
      nodes, calls := [], [];
    }

    method ClientCount(list: seq<Node>, p: Pair) returns (count: nat)
      ensures count == CountOf(list, p)
    {
      count := 0;
      for i := 0 to |list|
        invariant count == CountOf(list[..i], p)
      {
        assert list[..i + 1][..i] == list[..i];
        if list[i].pair == p { count := count + 1; }
      }
      assert list[..|list|] == list;
    }

    method RegisterEvent(n: Node, supported: bool, memOk: bool, enableOk: bool) returns (rc: Rc)
      modifies this
      ensures (Now(), rc) == Register(old(Now()), n, supported, memOk, enableOk)
    {
      if !supported { return Unsupported; }
      var i := 0;
      while i < |nodes|
        invariant i <= |nodes| && n !in nodes[..i]
      {
        if nodes[i] == n { return Already; }
        i := i + 1;
      }
      if !memOk { return NoMem; }
      var count := ClientCount(nodes, n.pair);
      if count == 0 {
        if !enableOk { return CallFailed; }
        calls := calls + [Enable(n.pair)];
      }
      nodes := nodes + [n];
      rc := Ok;
    }

    method DeregisterEvent(n: Node, supported: bool, disableOk: bool) returns (rc: Rc)
      modifies this
      ensures (Now(), rc) == Deregister(old(Now()), n, supported, disableOk)
    {
      if !supported { return Unsupported; }
      var i := 0;
      while i < |nodes| && nodes[i] != n
        invariant i <= |nodes| && forall k :: 0 <= k < i ==> nodes[k] != n
      {
        i := i + 1;
      }
      if i == |nodes| { return NoEnt; }
      nodes := nodes[..i] + nodes[i + 1..];
      var count := ClientCount(nodes, n.pair);
      rc := Ok;
      if count == 0 {
        if disableOk { calls := calls + [Disable(n.pair)]; } else { rc := CallFailed; }
      }
    }

    method ReleaseFile(file: nat, oks: seq<bool>)
      modifies this
      ensures Now() == Release(old(Now()), file, oks)
    {
      var mine := TakeMine(file);
      var rest := oks;
      while mine != []
        invariant nodes == Others(old(nodes), file)
        invariant ReleaseLoop(nodes, mine, calls, rest) == Release(old(Now()), file, oks).calls
        decreases |mine|
      {
        ReleaseNode(mine[0].pair, mine[1..], rest != [] && rest[0]);
        mine := mine[1..];
        if rest != [] { rest := rest[1..]; }
      }
    }

    /** The first loop: the nodes of the file move to a list of their own. */
    method TakeMine(file: nat) returns (mine: seq<Node>)
      modifies `nodes
      ensures nodes == Others(old(nodes), file) && mine == Mine(old(nodes), file)
    {
      mine := [];
      var others := [];
      for i := 0 to |nodes|
        invariant nodes == old(nodes)
        invariant mine == Mine(nodes[..i], file) && others == Others(nodes[..i], file)
      {
        assert nodes[..i + 1][..i] == nodes[..i];
        if nodes[i].file != file { others := others + [nodes[i]]; } else { mine := mine + [nodes[i]]; }
      }
      assert nodes[..|nodes|] == nodes;
      nodes := others;
    }

    /** One turn of the second loop, rest being what the temporary list still holds. */
    method ReleaseNode(p: Pair, rest: seq<Node>, ok: bool)
      modifies `calls
      ensures var last := CountOf(nodes, p) + CountOf(rest, p) == 0;
              calls == if last && ok then Tell(old(calls), Disable(p)) else old(calls)
    {
      var count := ClientCount(nodes, p);
      var again := ClientCount(rest, p);
      if count + again == 0 && ok { calls := calls + [Disable(p)]; }
    }
  }
}
