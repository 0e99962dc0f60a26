/**
 The display resource state coordinator (sde_rsc.c): many clients vote for a
 mode, and the arbiter keeps one current mode plus a reference-counted set of
 power resources.

 The value-level functions follow the C control flow; the hardware, the
 regulators and the vsync wait answer through Env. The class at the end is the
 imperative code, proved equal to those functions.
 */
module RscArbiter {
  import opened Common

  datatype Mode = Idle | Cmd | Vid | Clk
  datatype Kind = Primary | External | Clock
  datatype Client = Client(id: nat, kind: Kind, mode: Mode)

  /** Return codes; the last four are the driver's 0xFFFC..0xFFFF markers. */
  datatype Rc = Ok | Err | TimedOut | NotAllowed | CmdSwitched | VidSwitched | ClkSwitched

  /** What the outside answers during one call: the hardware state update, the
      vsync count left when a wait ends, and each stage of a resource enable. */
  datatype Env = Env(hwOk: bool, vsyncLeft: nat, vregOk: bool, busOk: bool, clkOk: bool)

  datatype Rsc = Rsc(
    clients: seq<Client>,
    primary: Option<nat>,   // id of the client behind primary_client
    nextId: nat,
    mode: Mode,             // current_state
    vsyncWait: nat,
    bound: bool,            // master_drm is set
    hasHwOp: bool,          // hw_ops.state_update is set
    power: Power)

  /** The counted resources; enableFailed remembers whether the enable of the
      last departure from idle failed. */
  datatype Power = Power(refcount: nat, vregOn: bool, busOn: bool, clkOn: bool, enableFailed: bool)

  // ---------- What the client list says ----------

  /** The four flags that the list walks of the C code compute. */
  datatype Votes = Votes(external: bool, clock: bool, vid: bool, cmd: bool) {
    function Or(v: Votes): Votes {
      Votes(external || v.external, clock || v.clock, vid || v.vid, cmd || v.cmd)
    }
  }

  function VoteOf(c: Client): Votes {
    Votes(c.mode == Clk && c.kind == External, c.mode == Clk && c.kind == Clock, c.mode == Vid, c.mode == Cmd)
  }

  function Scan(cs: seq<Client>): Votes {
    if cs == [] then Votes(false, false, false, false)
    else Scan(cs[..|cs| - 1]).Or(VoteOf(cs[|cs| - 1]))
  }

  ghost predicate AnyInMode(cs: seq<Client>, m: Mode) {
    exists k :: 0 <= k < |cs| && cs[k].mode == m
  }

  ghost predicate AnyClk(cs: seq<Client>, kind: Kind) {
    exists k :: 0 <= k < |cs| && cs[k].mode == Clk && cs[k].kind == kind
  }

  /** The mode the arbiter is for: an external display in clock state wins, then
      video, then command, then a clock client, then idle. */
  ghost function Arbitrate(cs: seq<Client>): Mode {
    if AnyClk(cs, External) then Clk
    else if AnyInMode(cs, Vid) then Vid
    else if AnyInMode(cs, Cmd) then Cmd
    else if AnyClk(cs, Clock) then Clk
    else Idle
  }

  // ---------- The four switches ----------

  function HwUpdate(r: Rsc, env: Env): Rc {
    if !r.hasHwOp then NotAllowed else if env.hwOk then Ok else Err
  }

  /** Shared shape of the command and the video switch: only the primary may
      ask, asking for the current mode is free, an external display blocks. */
  function SwitchToPanelMode(r: Rsc, target: Mode, caller: Option<nat>, env: Env): Rc {
    if r.primary.None? || caller != r.primary then Err
    else if r.mode == target then Ok
    else if Scan(r.clients).external then NotAllowed
    else HwUpdate(r, env)
  }

  /** The clock switch also returns the vsync wait count. A pending wait that
      ends well reports success whatever the hardware answered before it. */
  function SwitchToClk(r: Rsc, hasWaitPtr: bool, env: Env): (Rc, nat) {
    var v := Scan(r.clients);
    if !v.external && (v.vid || v.cmd) then
      (NotAllowed, r.vsyncWait)
    else
      var rc := HwUpdate(r, env);
      if rc == Ok && r.primary.Some? && (r.mode == Cmd || r.mode == Vid) then
        (rc, if hasWaitPtr then r.vsyncWait + 1 else r.vsyncWait)
      else if r.vsyncWait > 0 then
        (if env.vsyncLeft == 0 then Ok else TimedOut, env.vsyncLeft)
      else
        (rc, r.vsyncWait)
  }

  function SwitchToIdle(r: Rsc, hasWaitPtr: bool, env: Env): (Rc, nat) {
    var v := Scan(r.clients);
    if v.vid && !v.external then
      var rc := SwitchToPanelMode(r, Vid, r.primary, env);
      (if rc == Ok then VidSwitched else rc, r.vsyncWait)
    else if v.cmd && !v.external then
      var rc := SwitchToPanelMode(r, Cmd, r.primary, env);
      (if rc == Ok then CmdSwitched else rc, r.vsyncWait)
    else if v.clock then
      var (rc, w) := SwitchToClk(r, hasWaitPtr, env);
      (if rc == Ok then ClkSwitched else rc, w)
    else
      (HwUpdate(r, env), r.vsyncWait)
  }

  // ---------- Resources ----------

  /** First reference: regulators, register bus vote, clocks, in that order; a
      failing stage undoes the earlier ones and the reference. */
  function ResourceEnable(p: Power, env: Env): (Power, bool) {
    if p.refcount > 0 then (p.(refcount := p.refcount + 1), true)
    else if !env.vregOk then (p, false)
    else if !env.busOk then (p.(vregOn := false), false)
    else if !env.clkOk then (p.(vregOn := false, busOn := false), false)
    else (p.(refcount := 1, vregOn := true, busOn := true, clkOn := true), true)
  }

  function ResourceDisable(p: Power): Power {
    if p.refcount == 0 then p
    else if p.refcount > 1 then p.(refcount := p.refcount - 1)
    else p.(refcount := 0, vregOn := false, busOn := false, clkOn := false)
  }

  // ---------- Client calls ----------

  function WithVote(cs: seq<Client>, i: nat, m: Mode): seq<Client>
    requires i < |cs|
  {
    cs[i := cs[i].(mode := m)]
  }

  /** The request after the client's vote is recorded: return code, vsync count
      and the mode that a successful switch ends in. */
  function Switch(r: Rsc, caller: nat, m: Mode, hasWaitPtr: bool, env: Env): (Rc, nat, Mode) {
    match m
    case Idle =>
      var (rc, w) := SwitchToIdle(r, hasWaitPtr, env);
      (match rc
       case CmdSwitched => (Ok, w, Cmd)
       case VidSwitched => (Ok, w, Vid)
       case ClkSwitched => (Ok, w, Clk)
       case _ => (rc, w, Idle))
    case Clk => var (rc, w) := SwitchToClk(r, hasWaitPtr, env); (rc, w, Clk)
    case _ => (SwitchToPanelMode(r, m, Some(caller), env), r.vsyncWait, m)
  }

  /** Resources around a request: taken when leaving idle (the result is
      ignored by the caller), dropped when the request ends in idle. */
  function PowerAround(p: Power, from: Mode, to: Mode, env: Env): Power {
    var awake := PowerAwake(p, from, env);
    if to == Idle then ResourceDisable(awake) else awake
  }

  function PowerAwake(p: Power, from: Mode, env: Env): Power {
    if from == Idle then var (e, ok) := ResourceEnable(p, env); e.(enableFailed := !ok) else p
  }

  function Settle(r: Rsc, sw: (Rc, nat, Mode), env: Env): (Rsc, Rc) {
    var to := if sw.0 == Ok then sw.2 else r.mode;
    (r.(vsyncWait := sw.1, mode := to, power := PowerAround(r.power, r.mode, to, env)),
     if sw.0 == NotAllowed then Ok else sw.0)
  }

  function Update(r: Rsc, i: nat, m: Mode, hasConfig: bool, hasWaitPtr: bool, env: Env): (Rsc, Rc)
    requires i < |r.clients|
  {
    var voted := r.(clients := WithVote(r.clients, i, m));
    if !r.bound then (voted, Err)
    else if r.mode == m && !hasConfig then (voted, Ok)
    else
      Settle(voted, Switch(voted, r.clients[i].id, m, hasWaitPtr, env), env)
  }

  function TriggerVote(r: Rsc, env: Env): Rsc {
    var (e, ok) := ResourceEnable(r.power, env);
    r.(power := if ok then ResourceDisable(e) else e)
  }

  function Create(r: Rsc, kind: Kind): Rsc {
    r.(clients := [Client(r.nextId, kind, Idle)] + r.clients,
       primary := if kind == Primary then Some(r.nextId) else r.primary,
       nextId := r.nextId + 1)
  }

  /** A client that still votes is moved to idle first, then unlinked.
      primary_client is not cleared. */
  function Destroy(r: Rsc, i: nat, env: Env): Rsc
    requires i < |r.clients|
  {
    var quiet := if r.clients[i].mode == Idle then r else Update(r, i, Idle, false, true, env).0;
    quiet.(clients := Without(quiet.clients, i))
  }

  // ---------- Runs ----------

  datatype Event =
    | ECreate(kind: Kind)
    | EUpdate(i: nat, m: Mode, hasConfig: bool, hasWaitPtr: bool, env: Env)
    | EDestroy(i: nat, env: Env)
    | EVote(env: Env)
    | EVsync

  function Apply(r: Rsc, ev: Event): Rsc {
    match ev
    case ECreate(k) => Create(r, k)
    case EUpdate(i, m, cfg, w, env) => if i < |r.clients| then Update(r, i, m, cfg, w, env).0 else r
    case EDestroy(i, env) => if i < |r.clients| then Destroy(r, i, env) else r
    case EVote(env) => TriggerVote(r, env)
    case EVsync => r.(vsyncWait := if r.vsyncWait > 0 then r.vsyncWait - 1 else 0)
  }

  function Run(r: Rsc, evs: seq<Event>): Rsc
    decreases |evs|
  {
    if evs == [] then r else Run(Apply(r, evs[0]), evs[1..])
  }

  function Start(bound: bool, hasHwOp: bool): Rsc {
    Rsc([], None, 0, Idle, 0, bound, hasHwOp, Power(0, false, false, false, false))
  }

  ghost predicate Arbitrated(r: Rsc) { r.mode == Arbitrate(r.clients) }

  ghost predicate OutsideSucceeds(env: Env) { env.hwOk && env.vsyncLeft == 0 }

  // ---------- Arbitration: the exact condition for one request ----------

  ghost predicate IsExternalClk(c: Client) { c.kind == External && c.mode == Clk }

  /** When a request keeps the arbitration. Everything is read off the client
      list before the call and the request itself. */
  ghost predicate Honoured(r: Rsc, i: nat, m: Mode, hasConfig: bool)
    requires i < |r.clients|
  {
    var c, before, v := r.clients[i], Scan(r.clients), Scan(WithVote(r.clients, i, m));
    (r.mode == m && !hasConfig) ||
    match m
    case Idle =>
      // releasing must not strand an external display without a clock client
      if v.external then v.clock
      else if v.vid then r.primary.Some? || !IsExternalClk(c)
      else if v.cmd then r.primary.Some? || (!IsExternalClk(c) && c.mode != Vid)
      else true
    case Clk =>
      v.external || v.vid || (if v.cmd then c.mode != Vid else v.clock)
    case Cmd =>
      v.external ||
      (if r.primary == Some(c.id) then !v.vid
       else !IsExternalClk(c) && (v.vid || (c.mode != Vid && before.cmd)))
    case Vid =>
      v.external || r.primary == Some(c.id) || (!IsExternalClk(c) && before.vid)
  }

  /** The flags of the list walk are the existence claims they stand for. */
  lemma {:induction false} ScanMeaning(cs: seq<Client>)
    ensures Scan(cs).external <==> AnyClk(cs, External)
    ensures Scan(cs).clock <==> AnyClk(cs, Clock)
    ensures Scan(cs).vid <==> AnyInMode(cs, Vid)
    ensures Scan(cs).cmd <==> AnyInMode(cs, Cmd)
  {
    if cs != [] {
      ScanMeaning(cs[..|cs| - 1]);
      AnyClkLast(cs, External);
      AnyClkLast(cs, Clock);
      AnyInModeLast(cs, Vid);
      AnyInModeLast(cs, Cmd);
    }
  }

  lemma AnyClkLast(cs: seq<Client>, kind: Kind)
    requires cs != []
    ensures var n := |cs| - 1; AnyClk(cs, kind) <==> AnyClk(cs[..n], kind) || (cs[n].mode == Clk && cs[n].kind == kind)
  {
    var n := |cs| - 1;
    assert forall k :: 0 <= k < n ==> cs[..n][k] == cs[k];
  }

  lemma AnyInModeLast(cs: seq<Client>, m: Mode)
    requires cs != []
    ensures var n := |cs| - 1; AnyInMode(cs, m) <==> AnyInMode(cs[..n], m) || cs[n].mode == m
  {
    var n := |cs| - 1;
    assert forall k :: 0 <= k < n ==> cs[..n][k] == cs[k];
  }

  function Decide(v: Votes): Mode {
    if v.external then Clk else if v.vid then Vid else if v.cmd then Cmd else if v.clock then Clk else Idle
  }

  lemma ArbitrateIsDecide(cs: seq<Client>)
    ensures Arbitrate(cs) == Decide(Scan(cs))
  {
    ScanMeaning(cs);
  }

  /** The flags are those of one element joined with those of the rest. */
  lemma {:induction false} ScanSplit(cs: seq<Client>, i: nat)
    requires i < |cs|
    ensures Scan(cs) == Scan(Without(cs, i)).Or(VoteOf(cs[i]))
  {
    var n := |cs| - 1;
    if i == n {
      assert Without(cs, i) == cs[..n];
    } else {
      ScanSplit(cs[..n], i);
      assert Without(cs, i)[..n - 1] == Without(cs[..n], i);
    }
  }

  lemma ScanVote(cs: seq<Client>, i: nat, m: Mode)
    requires i < |cs|
    ensures Scan(WithVote(cs, i, m)) == Scan(Without(cs, i)).Or(VoteOf(cs[i].(mode := m)))
  {
    ScanSplit(WithVote(cs, i, m), i);
    assert Without(WithVote(cs, i, m), i) == Without(cs, i);
  }

  /** The mode a request ends in, resources aside. */
  function Landing(r: Rsc, caller: nat, m: Mode, hasWaitPtr: bool, env: Env): Mode {
    var (rc, _, m') := Switch(r, caller, m, hasWaitPtr, env);
    if rc == Ok then m' else r.mode
  }

  /** Where each request lands, as a function of the flags, when the outside succeeds. */
  lemma LandingByFlags(r: Rsc, caller: nat, m: Mode, hasWaitPtr: bool, env: Env)
    requires r.hasHwOp && OutsideSucceeds(env)
    ensures var v := Scan(r.clients);
            Landing(r, caller, m, hasWaitPtr, env) ==
            match m
            case Idle =>
              if !v.external && (v.vid || v.cmd) then
                if r.primary.None? then r.mode else if v.vid then Vid else Cmd
              else if v.clock then Clk
              else Idle
            case Clk => if !v.external && (v.vid || v.cmd) then r.mode else Clk
            case _ => if r.primary != Some(caller) || (v.external && r.mode != m) then r.mode else m
  {
  }

  /** From an arbitrated state, with the outside succeeding, a request leaves the
      arbiter arbitrated exactly when it is Honoured. */
  lemma UpdateArbitratesIff(r: Rsc, i: nat, m: Mode, hasConfig: bool, hasWaitPtr: bool, env: Env)
    requires Arbitrated(r) && i < |r.clients| && r.bound && r.hasHwOp && OutsideSucceeds(env)
    ensures Arbitrated(Update(r, i, m, hasConfig, hasWaitPtr, env).0) <==> Honoured(r, i, m, hasConfig)
  {
    var cs, u := WithVote(r.clients, i, m), Update(r, i, m, hasConfig, hasWaitPtr, env).0;
    assert r.mode == Decide(Scan(r.clients)) && (Arbitrated(u) <==> u.mode == Decide(Scan(cs))) by {
      ArbitrateIsDecide(r.clients);
      ArbitrateIsDecide(cs);
    }
    LandingByFlags(r.(clients := cs), r.clients[i].id, m, hasWaitPtr, env);
    ScanSplit(r.clients, i);
    ScanVote(r.clients, i, m);
  }

  // ---------- Arbitration over whole runs ----------

  /** Ids come from a counter, so no two clients share one. */
  ghost predicate WellFormed(r: Rsc) { IdsOk(r.clients, r.nextId) }

  ghost predicate IdsOk(cs: seq<Client>, next: nat) {
    && (forall k :: 0 <= k < |cs| ==> cs[k].id < next)
    && (forall j, k :: 0 <= j < k < |cs| ==> cs[j].id != cs[k].id)
  }

  lemma IdsWithout(cs: seq<Client>, next: nat, i: nat)
    requires IdsOk(cs, next) && i < |cs|
    ensures IdsOk(Without(cs, i), next)
  {
  }

  lemma IdsVote(cs: seq<Client>, next: nat, i: nat, m: Mode)
    requires IdsOk(cs, next) && i < |cs|
    ensures IdsOk(WithVote(cs, i, m), next)
  {
  }

  lemma UpdateClients(r: Rsc, i: nat, m: Mode, hasConfig: bool, hasWaitPtr: bool, env: Env)
    requires i < |r.clients|
    ensures var u := Update(r, i, m, hasConfig, hasWaitPtr, env).0;
            u.clients == WithVote(r.clients, i, m) && u.nextId == r.nextId && u.primary == r.primary
  {
  }

  lemma ApplyWellFormed(r: Rsc, ev: Event)
    requires WellFormed(r)
    ensures WellFormed(Apply(r, ev))
  {
    match ev
    case ECreate(k) => assert WellFormed(Create(r, k));
    case EUpdate(i, m, cfg, w, env) =>
      if i < |r.clients| {
        UpdateClients(r, i, m, cfg, w, env);
        IdsVote(r.clients, r.nextId, i, m);
      }
    case EDestroy(i, env) => if i < |r.clients| { DestroyWellFormed(r, i, env); }
    case _ =>
  }

  lemma DestroyWellFormed(r: Rsc, i: nat, env: Env)
    requires WellFormed(r) && i < |r.clients|
    ensures WellFormed(Destroy(r, i, env))
  {
    if r.clients[i].mode == Idle {
      IdsWithout(r.clients, r.nextId, i);
    } else {
      UpdateClients(r, i, Idle, false, true, env);
      IdsVote(r.clients, r.nextId, i, Idle);
      IdsWithout(WithVote(r.clients, i, Idle), r.nextId, i);
    }
  }

  /** What the source assumes of its clients: one primary, which alone asks for
      command or video and never for clock, and a clock client in clock state
      whenever an external display is. */
  ghost predicate Disciplined(r: Rsc) {
    && (forall k :: 0 <= k < |r.clients| ==>
          var c := r.clients[k];
          && (c.kind == Primary ==> r.primary == Some(c.id) && c.mode != Clk)
          && (c.mode == Cmd || c.mode == Vid ==> c.kind == Primary))
    && (AnyClk(r.clients, External) ==> AnyClk(r.clients, Clock))
  }

  lemma DisciplinedIsHonoured(r: Rsc, i: nat, m: Mode, hasConfig: bool)
    requires WellFormed(r) && i < |r.clients|
    requires Disciplined(r) && Disciplined(r.(clients := WithVote(r.clients, i, m)))
    ensures Honoured(r, i, m, hasConfig)
  {
    var cs := WithVote(r.clients, i, m);
    ScanMeaning(cs);
    assert cs[i].mode == m;
  }

  ghost predicate StepOk(r: Rsc, ev: Event) {
    && (ev.EUpdate? || ev.EDestroy? ==> OutsideSucceeds(ev.env))
    && Disciplined(Apply(r, ev))
  }

  ghost predicate Driven(r: Rsc, evs: seq<Event>)
    decreases |evs|
  {
    evs == [] || (StepOk(r, evs[0]) && Driven(Apply(r, evs[0]), evs[1..]))
  }

  lemma CreateArbitrates(r: Rsc, kind: Kind)
    requires Arbitrated(r)
    ensures Arbitrated(Create(r, kind))
  {
    var cs := Create(r, kind).clients;
    ArbitrateIsDecide(r.clients);
    ArbitrateIsDecide(cs);
    ScanSplit(cs, 0);
    assert Without(cs, 0) == r.clients;
  }

  lemma DestroyArbitrates(r: Rsc, i: nat, env: Env)
    requires WellFormed(r) && i < |r.clients| && Arbitrated(r) && r.bound && r.hasHwOp && OutsideSucceeds(env)
    requires Disciplined(r) && Disciplined(Destroy(r, i, env))
    ensures Arbitrated(Destroy(r, i, env))
  {
    var voted := r.(clients := WithVote(r.clients, i, Idle));
    var rest := Without(r.clients, i);
    assert Without(voted.clients, i) == rest;
    ScanSplit(voted.clients, i);
    ScanMeaning(voted.clients);
    ScanMeaning(rest);
    ArbitrateIsDecide(voted.clients);
    ArbitrateIsDecide(rest);
    assert Disciplined(voted);
    if r.clients[i].mode == Idle {
      assert voted == r;
    } else {
      DisciplinedIsHonoured(r, i, Idle, false);
      UpdateArbitratesIff(r, i, Idle, false, true, env);
    }
  }

  lemma StepArbitrates(r: Rsc, ev: Event)
    requires WellFormed(r) && Disciplined(r) && Arbitrated(r) && r.bound && r.hasHwOp && StepOk(r, ev)
    ensures Arbitrated(Apply(r, ev)) && Apply(r, ev).bound && Apply(r, ev).hasHwOp
  {
    match ev
    case ECreate(k) => CreateArbitrates(r, k);
    case EUpdate(i, m, cfg, w, env) =>
      if i < |r.clients| {
        assert Disciplined(r.(clients := WithVote(r.clients, i, m)));
        DisciplinedIsHonoured(r, i, m, cfg);
        UpdateArbitratesIff(r, i, m, cfg, w, env);
      }
    case EDestroy(i, env) => if i < |r.clients| { DestroyArbitrates(r, i, env); }
    case EVote(env) =>
    case EVsync =>
  }

  /** In every disciplined run the current mode is the arbitration of the client list. */
  lemma {:induction false} RunArbitrates(r: Rsc, evs: seq<Event>)
    requires WellFormed(r) && Disciplined(r) && Arbitrated(r) && r.bound && r.hasHwOp && Driven(r, evs)
    ensures Arbitrated(Run(r, evs))
    decreases |evs|
  {
    if evs != [] {
      StepArbitrates(r, evs[0]);
      ApplyWellFormed(r, evs[0]);
      RunArbitrates(Apply(r, evs[0]), evs[1..]);
    }
  }

  lemma RunFromStartArbitrates(evs: seq<Event>)
    requires Driven(Start(true, true), evs)
    ensures Run(Start(true, true), evs).mode == Arbitrate(Run(Start(true, true), evs).clients)
  {
    RunArbitrates(Start(true, true), evs);
  }

  // ---------- Resource balance over every run ----------

  ghost predicate Balanced(r: Rsc) {
    && r.power.refcount == (if r.mode != Idle && !r.power.enableFailed then 1 else 0)
    && r.power.vregOn == r.power.busOn == r.power.clkOn == (r.power.refcount > 0)
  }

  lemma UpdateBalanced(r: Rsc, i: nat, m: Mode, hasConfig: bool, hasWaitPtr: bool, env: Env)
    requires Balanced(r) && i < |r.clients|
    ensures Balanced(Update(r, i, m, hasConfig, hasWaitPtr, env).0)
  {
    var sw := Switch(r.(clients := WithVote(r.clients, i, m)), r.clients[i].id, m, hasWaitPtr, env);
    var to := if sw.0 == Ok then sw.2 else r.mode;
    var p := PowerAround(r.power, r.mode, to, env);
    assert p.refcount == (if to != Idle && !p.enableFailed then 1 else 0);
  }

  /** Whatever the clients ask and the outside answers, the references are one
      when not idle and the enable on leaving idle worked, zero otherwise, and the
      regulators, bus vote and clocks are on exactly while a reference is held. */
  lemma {:induction false} RunBalanced(r: Rsc, evs: seq<Event>)
    requires Balanced(r)
    ensures Balanced(Run(r, evs))
    decreases |evs|
  {
    if evs != [] {
      match evs[0] {
        case EUpdate(i, m, cfg, w, env) => if i < |r.clients| { UpdateBalanced(r, i, m, cfg, w, env); }
        case EDestroy(i, env) => if i < |r.clients| { UpdateBalanced(r, i, Idle, false, true, env); }
        case _ =>
      }
      RunBalanced(Apply(r, evs[0]), evs[1..]);
    }
  }

  // ---------- Where the arbitration does fail ----------

  /** The last clock client leaving while an external display is in clock state
      sends the arbiter to idle. */
  lemma ReleaseStrandsExternal(r: Rsc, i: nat, hasWaitPtr: bool, env: Env)
    requires i < |r.clients| && r.bound && r.hasHwOp && OutsideSucceeds(env) && r.mode == Clk
    requires AnyClk(WithVote(r.clients, i, Idle), External) && !AnyClk(WithVote(r.clients, i, Idle), Clock)
    ensures var u := Update(r, i, Idle, false, hasWaitPtr, env).0; u.mode == Idle && Arbitrate(u.clients) == Clk
  {
    var cs := WithVote(r.clients, i, Idle);
    ScanMeaning(cs);
    LandingByFlags(r.(clients := cs), r.clients[i].id, Idle, hasWaitPtr, env);
  }

  /** The smallest such list: one external display and one clock client. */
  lemma ReleaseCanStrandExternal(r: Rsc, env: Env)
    requires r == Rsc([Client(0, External, Clk), Client(1, Clock, Clk)], None, 2, Clk, 0, true, true,
                      Power(1, true, true, true, false))
    requires OutsideSucceeds(env)
    ensures WellFormed(r) && Disciplined(r) && Arbitrated(r)
    ensures !Arbitrated(Update(r, 1, Idle, false, false, env).0)
  {
    var cs := WithVote(r.clients, 1, Idle);
    assert r.clients[0].kind == External && r.clients[1].kind == Clock;
    assert cs[0].kind == External && cs[1].mode == Idle;
    ReleaseStrandsExternal(r, 1, false, env);
  }

  /** The clock switch is reached and its answer is that of an older vsync wait. */
  predicate WaitAnswers(r: Rsc, m: Mode, env: Env) {
    var v := Scan(r.clients);
    (m == Clk || (m == Idle && v.clock)) && (v.external || (!v.vid && !v.cmd)) && r.vsyncWait > 0 && env.vsyncLeft == 0
  }

  /** A hardware update that fails, or that there is no operation for, is still
      reported as a switch to clock exactly when a pending wait answers for it. */
  lemma HwFailureHiddenIff(r: Rsc, i: nat, m: Mode, hasConfig: bool, hasWaitPtr: bool, env: Env)
    requires i < |r.clients| && r.bound && (r.mode != m || hasConfig) && !(r.hasHwOp && env.hwOk)
    ensures var voted := r.(clients := WithVote(r.clients, i, m));
      var (rc, _, to) := Switch(voted, r.clients[i].id, m, hasWaitPtr, env);
      var (u, urc) := Update(r, i, m, hasConfig, hasWaitPtr, env);
      && (rc == Ok && to == Clk <==> WaitAnswers(voted, m, env))
      && (WaitAnswers(voted, m, env) ==> urc == Ok && u.mode == Clk)
      && (r.mode != Clk ==> (u.mode == Clk <==> WaitAnswers(voted, m, env)))
  {
  }

  // ---------- What the hardware was last told ----------

  /** The state a panel switch passes to the hardware, if it gets that far. */
  function PanelAsks(r: Rsc, target: Mode, caller: Option<nat>): Option<Mode> {
    if r.primary.None? || caller != r.primary || r.mode == target || Scan(r.clients).external then None
    else Some(target)
  }

  function ClkAsks(r: Rsc): Option<Mode> {
    var v := Scan(r.clients);
    if !v.external && (v.vid || v.cmd) then None else Some(Clk)
  }

  /** The state a request passes to the hardware, after its vote is recorded. */
  function Asks(r: Rsc, caller: nat, m: Mode): Option<Mode> {
    var v := Scan(r.clients);
    match m
    case Idle =>
      if v.vid && !v.external then PanelAsks(r, Vid, r.primary)
      else if v.cmd && !v.external then PanelAsks(r, Cmd, r.primary)
      else if v.clock then ClkAsks(r)
      else Some(Idle)
    case Clk => ClkAsks(r)
    case _ => PanelAsks(r, m, Some(caller))
  }

  /** The last state the hardware accepted, hw being the one before the request. */
  function HwAfter(r: Rsc, hw: Mode, i: nat, m: Mode, hasConfig: bool, env: Env): Mode
    requires i < |r.clients|
  {
    var voted := r.(clients := WithVote(r.clients, i, m));
    if !r.bound || (r.mode == m && !hasConfig) || !r.hasHwOp || !env.hwOk then hw
    else match Asks(voted, r.clients[i].id, m)
      case None => hw
      case Some(asked) => asked
  }

  /** The clock switch is reached, and an older vsync wait gives its answer. */
  predicate WaitDecides(r: Rsc, m: Mode, env: Env) {
    (m == Clk || (m == Idle && Scan(r.clients).clock)) && ClkWaits(r, env)
  }

  predicate ClkWaits(r: Rsc, env: Env) {
    var v := Scan(r.clients);
    && (v.external || (!v.vid && !v.cmd)) && r.vsyncWait > 0
    && !(r.hasHwOp && env.hwOk && r.primary.Some? && (r.mode == Cmd || r.mode == Vid))
  }

  function HwOf(r: Rsc, asked: Option<Mode>, env: Env): Mode {
    if asked.Some? && r.hasHwOp && env.hwOk then asked.value else r.mode
  }

  lemma PanelAgrees(r: Rsc, target: Mode, caller: Option<nat>, env: Env)
    ensures HwOf(r, PanelAsks(r, target, caller), env) ==
            if SwitchToPanelMode(r, target, caller, env) == Ok then target else r.mode
  {
  }

  /** The wait and the hardware answer differently, from a state other than clock. */
  predicate AnswersDiffer(r: Rsc, env: Env) { r.mode != Clk && (r.hasHwOp && env.hwOk) != (env.vsyncLeft == 0) }

  lemma ClkAgreesIff(r: Rsc, hasWaitPtr: bool, env: Env)
    ensures HwOf(r, ClkAsks(r), env) == (if SwitchToClk(r, hasWaitPtr, env).0 == Ok then Clk else r.mode)
       <==> !(ClkWaits(r, env) && AnswersDiffer(r, env))
  {
  }

  lemma SwitchAgreesIff(r: Rsc, caller: nat, m: Mode, hasWaitPtr: bool, env: Env)
    ensures HwOf(r, Asks(r, caller, m), env) == Landing(r, caller, m, hasWaitPtr, env)
       <==> !(WaitDecides(r, m, env) && AnswersDiffer(r, env))
  {
    match m
    case Idle =>
      PanelAgrees(r, Vid, r.primary, env);
      PanelAgrees(r, Cmd, r.primary, env);
      ClkAgreesIff(r, hasWaitPtr, env);
    case Clk => ClkAgreesIff(r, hasWaitPtr, env);
    case _ => PanelAgrees(r, m, Some(caller), env);
  }

  /** A request after which current_state and the hardware part ways. */
  predicate Parts(r: Rsc, i: nat, m: Mode, hasConfig: bool, env: Env)
    requires i < |r.clients|
  {
    && r.bound && (r.mode != m || hasConfig)
    && WaitDecides(r.(clients := WithVote(r.clients, i, m)), m, env) && AnswersDiffer(r, env)
  }

  /** Where they agree, they agree after a request exactly unless the wait answers for
      the hardware and answers otherwise: a failure reported as a switch, or a switch
      that the hardware made reported as a timeout. */
  lemma HwAgreesIff(r: Rsc, i: nat, m: Mode, hasConfig: bool, hasWaitPtr: bool, env: Env)
    requires i < |r.clients|
    ensures HwAfter(r, r.mode, i, m, hasConfig, env) == Update(r, i, m, hasConfig, hasWaitPtr, env).0.mode
       <==> !Parts(r, i, m, hasConfig, env)
  {
    SwitchAgreesIff(r.(clients := WithVote(r.clients, i, m)), r.clients[i].id, m, hasWaitPtr, env);
  }

  /** The hardware's view over a run. */
  function HwRun(r: Rsc, hw: Mode, evs: seq<Event>): Mode
    decreases |evs|
  {
    if evs == [] then hw else HwRun(Apply(r, evs[0]), HwStep(r, hw, evs[0]), evs[1..])
  }

  function HwStep(r: Rsc, hw: Mode, ev: Event): Mode {
    match ev
    case EUpdate(i, m, cfg, _, env) => if i < |r.clients| then HwAfter(r, hw, i, m, cfg, env) else hw
    case EDestroy(i, env) =>
      if i < |r.clients| && r.clients[i].mode != Idle then HwAfter(r, hw, i, Idle, false, env) else hw
    case _ => hw
  }

  ghost predicate StepParts(r: Rsc, ev: Event) {
    match ev
    case EUpdate(i, m, cfg, _, env) => i < |r.clients| && Parts(r, i, m, cfg, env)
    case EDestroy(i, env) => i < |r.clients| && r.clients[i].mode != Idle && Parts(r, i, Idle, false, env)
    case _ => false
  }

  lemma StepAgreesIff(r: Rsc, ev: Event)
    ensures HwStep(r, r.mode, ev) == Apply(r, ev).mode <==> !StepParts(r, ev)
  {
    match ev
    case EUpdate(i, m, cfg, w, env) => if i < |r.clients| { HwAgreesIff(r, i, m, cfg, w, env); }
    case EDestroy(i, env) => if i < |r.clients| { HwAgreesIff(r, i, Idle, false, true, env); }
    case _ =>
  }

  ghost predicate NeverParts(r: Rsc, evs: seq<Event>)
    decreases |evs|
  {
    evs == [] || (!StepParts(r, evs[0]) && NeverParts(Apply(r, evs[0]), evs[1..]))
  }

  /** In every run without such a request, current_state is what the hardware accepted. */
  lemma {:induction false} RunHwAgrees(r: Rsc, evs: seq<Event>)
    requires NeverParts(r, evs)
    ensures HwRun(r, r.mode, evs) == Run(r, evs).mode
    decreases |evs|
  {
    if evs != [] {
      StepAgreesIff(r, evs[0]);
      RunHwAgrees(Apply(r, evs[0]), evs[1..]);
    }
  }

  /** One idle clock client, one vsync wait pending: the hardware goes to clock, the
      wait times out and current_state stays. */
  lemma TimeoutStrandsHardware(r: Rsc, env: Env)
    requires r == Rsc([Client(0, Clock, Idle)], None, 1, Idle, 1, true, true, Power(0, false, false, false, false))
    requires env.hwOk && env.vsyncLeft == 1
    ensures HwAfter(r, r.mode, 0, Clk, false, env) == Clk && Update(r, 0, Clk, false, true, env).0.mode == Idle
  {
    var voted := WithVote(r.clients, 0, Clk);
    assert voted == [Client(0, Clock, Clk)] && voted[..0] == [];
  }

  // ---------- The vsync count ----------

  /** What a request leaves in rsc_vsync_wait: one more when a working switch from a
      panel mode to clock is told to wait; what the wait left, where one was due. */
  function VsyncAfter(r: Rsc, i: nat, m: Mode, hasConfig: bool, hasWaitPtr: bool, env: Env): nat
    requires i < |r.clients|
  {
    var voted := r.(clients := WithVote(r.clients, i, m));
    if !r.bound || (r.mode == m && !hasConfig) || Asks(voted, r.clients[i].id, m) != Some(Clk) then r.vsyncWait
    else if r.hasHwOp && env.hwOk && r.primary.Some? && (r.mode == Cmd || r.mode == Vid) then
      r.vsyncWait + if hasWaitPtr then 1 else 0
    else if r.vsyncWait > 0 then env.vsyncLeft
    else 0
  }

  lemma ClkVsync(r: Rsc, hasWaitPtr: bool, env: Env)
    ensures SwitchToClk(r, hasWaitPtr, env).1 ==
            if ClkAsks(r).None? then r.vsyncWait
            else if r.hasHwOp && env.hwOk && r.primary.Some? && (r.mode == Cmd || r.mode == Vid) then
              r.vsyncWait + if hasWaitPtr then 1 else 0
            else if r.vsyncWait > 0 then env.vsyncLeft
            else 0
  {
  }

  lemma VsyncExact(r: Rsc, i: nat, m: Mode, hasConfig: bool, hasWaitPtr: bool, env: Env)
    requires i < |r.clients|
    ensures Update(r, i, m, hasConfig, hasWaitPtr, env).0.vsyncWait == VsyncAfter(r, i, m, hasConfig, hasWaitPtr, env)
  {
    ClkVsync(r.(clients := WithVote(r.clients, i, m)), hasWaitPtr, env);
  }

  function VsyncStep(r: Rsc, n: nat, ev: Event): nat {
    match ev
    case EUpdate(i, m, cfg, w, env) => if i < |r.clients| then VsyncAfter(r, i, m, cfg, w, env) else n
    case EDestroy(i, env) =>
      if i < |r.clients| && r.clients[i].mode != Idle then VsyncAfter(r, i, Idle, false, true, env) else n
    case EVsync => if n == 0 then 0 else n - 1
    case _ => n
  }

  function VsyncRun(r: Rsc, n: nat, evs: seq<Event>): nat
    decreases |evs|
  {
    if evs == [] then n else VsyncRun(Apply(r, evs[0]), VsyncStep(r, n, evs[0]), evs[1..])
  }

  /** Over every run the count is the waits asked for, less the vsyncs seen and the
      waits made. */
  lemma {:induction false} RunVsync(r: Rsc, evs: seq<Event>)
    ensures Run(r, evs).vsyncWait == VsyncRun(r, r.vsyncWait, evs)
    decreases |evs|
  {
    if evs != [] {
      match evs[0] {
        case EUpdate(i, m, cfg, w, env) => if i < |r.clients| { VsyncExact(r, i, m, cfg, w, env); }
        case EDestroy(i, env) => if i < |r.clients| { VsyncExact(r, i, Idle, false, true, env); }
        case _ =>
      }
      RunVsync(Apply(r, evs[0]), evs[1..]);
    }
  }

  // ---------- What a caller is told ----------

  /** A panel request by anyone but the primary is an error, blocked requests are not;
      a hardware error or a timeout is passed on, whichever comes last. */
  lemma AnswerExact(r: Rsc, i: nat, m: Mode, hasConfig: bool, hasWaitPtr: bool, env: Env)
    requires i < |r.clients|
    ensures var voted := r.(clients := WithVote(r.clients, i, m)); var v := Scan(voted.clients);
            var asked := Asks(voted, r.clients[i].id, m);
            var panel := m == Cmd || m == Vid || (m == Idle && !v.external && (v.vid || v.cmd));
            Update(r, i, m, hasConfig, hasWaitPtr, env).1 ==
            if !r.bound then Err
            else if r.mode == m && !hasConfig then Ok
            else if panel && (r.primary.None? || (m != Idle && r.primary != Some(r.clients[i].id))) then Err
            else if asked.None? then Ok
            else if WaitDecides(voted, m, env) then (if env.vsyncLeft == 0 then Ok else TimedOut)
            else if r.hasHwOp && !env.hwOk then Err
            else Ok
  {
    var voted := r.(clients := WithVote(r.clients, i, m));
    ClkAnswer(voted, hasWaitPtr, env);
    assert voted.primary == r.primary;
  }

  lemma ClkAnswer(r: Rsc, hasWaitPtr: bool, env: Env)
    ensures SwitchToClk(r, hasWaitPtr, env).0 ==
            if ClkAsks(r).None? then NotAllowed
            else if ClkWaits(r, env) then (if env.vsyncLeft == 0 then Ok else TimedOut)
            else if !r.hasHwOp then NotAllowed else if env.hwOk then Ok else Err
  {
  }

  // ---------- Whose votes count ----------

  /** The client list: a new client comes first, in the kind it was created with and
      idle; a request changes the mode of its own client, whatever it is answered. */
  lemma ClientsExact(r: Rsc, kind: Kind, i: nat, m: Mode, hasConfig: bool, hasWaitPtr: bool, env: Env)
    requires i < |r.clients|
    ensures Create(r, kind).clients == [Client(r.nextId, kind, Idle)] + r.clients
    ensures var u := Update(r, i, m, hasConfig, hasWaitPtr, env).0;
            && |u.clients| == |r.clients| && u.primary == r.primary && u.nextId == r.nextId
            && u.clients[i] == Client(r.clients[i].id, r.clients[i].kind, m)
            && forall k :: 0 <= k < |r.clients| && k != i ==> u.clients[k] == r.clients[k]
    ensures Destroy(r, i, env).clients == r.clients[..i] + r.clients[i + 1..]
  {
    UpdateClients(r, i, m, hasConfig, hasWaitPtr, env);
    UpdateClients(r, i, Idle, false, true, env);
    var quiet := WithVote(r.clients, i, Idle);
    assert quiet[..i] == r.clients[..i] && quiet[i + 1..] == r.clients[i + 1..];
  }

  // ---------- When an enable works ----------

  /** An enable fails exactly when it is the first and a stage fails. */
  lemma EnableIff(p: Power, env: Env)
    ensures ResourceEnable(p, env).1 <==> p.refcount > 0 || (env.vregOk && env.busOk && env.clkOk)
    ensures ResourceEnable(p, env).0.enableFailed == ResourceDisable(p).enableFailed == p.enableFailed
  {
  }

  predicate SuppliesOk(env: Env) { env.vregOk && env.busOk && env.clkOk }

  /** A departure from idle, kept or not, remembers whether its enable worked. */
  lemma UpdateRemembers(r: Rsc, i: nat, m: Mode, hasConfig: bool, hasWaitPtr: bool, env: Env)
    requires i < |r.clients| && Balanced(r)
    ensures var u := Update(r, i, m, hasConfig, hasWaitPtr, env).0;
            u.power.enableFailed == if r.bound && (r.mode != m || hasConfig) && r.mode == Idle then !SuppliesOk(env)
                                    else r.power.enableFailed
  {
  }

  predicate SuppliesWork(evs: seq<Event>) {
    forall k :: 0 <= k < |evs| && (evs[k].EUpdate? || evs[k].EDestroy?) ==> SuppliesOk(evs[k].env)
  }

  /** If every supply works whenever it is asked, exactly one reference is held while
      the state is not idle. */
  lemma {:induction false} RunHoldsOne(r: Rsc, evs: seq<Event>)
    requires Balanced(r) && !r.power.enableFailed && SuppliesWork(evs)
    ensures Run(r, evs).power.refcount == if Run(r, evs).mode == Idle then 0 else 1
    decreases |evs|
  {
    if evs != [] {
      StepHoldsOne(r, evs[0]);
      assert forall k :: 0 <= k < |evs| - 1 ==> evs[1..][k] == evs[k + 1];
      RunHoldsOne(Apply(r, evs[0]), evs[1..]);
    }
  }

  lemma StepHoldsOne(r: Rsc, ev: Event)
    requires Balanced(r) && !r.power.enableFailed && (ev.EUpdate? || ev.EDestroy? ==> SuppliesOk(ev.env))
    ensures Balanced(Apply(r, ev)) && !Apply(r, ev).power.enableFailed
  {
    match ev
    case EUpdate(i, m, cfg, w, env) =>
      if i < |r.clients| {
        UpdateBalanced(r, i, m, cfg, w, env);
        UpdateRemembers(r, i, m, cfg, w, env);
      }
    case EDestroy(i, env) =>
      if i < |r.clients| {
        UpdateBalanced(r, i, Idle, false, true, env);
        UpdateRemembers(r, i, Idle, false, true, env);
      }
    case EVote(env) => EnableIff(r.power, env);
    case _ =>
  }

  // ---------- The primary pointer ----------

  ghost predicate Listed(cs: seq<Client>, id: nat) { exists k :: 0 <= k < |cs| && cs[k].id == id }

  /** primary_client is NULL or a client on the list. */
  ghost predicate PrimaryListed(r: Rsc) { r.primary.None? || Listed(r.clients, r.primary.value) }

  ghost predicate IdsKnown(r: Rsc) { WellFormed(r) && (r.primary.Some? ==> r.primary.value < r.nextId) }

  predicate DestroysPrimary(r: Rsc, ev: Event) {
    ev.EDestroy? && ev.i < |r.clients| && r.primary == Some(r.clients[ev.i].id)
  }

  /** The primary was destroyed, and no primary client has been created since. */
  predicate Lost(r: Rsc, lost: bool, evs: seq<Event>)
    decreases |evs|
  {
    if evs == [] then lost
    else Lost(Apply(r, evs[0]), LostAfter(r, lost, evs[0]), evs[1..])
  }

  predicate LostAfter(r: Rsc, lost: bool, ev: Event) {
    !(ev.ECreate? && ev.kind == Primary) && (lost || DestroysPrimary(r, ev))
  }

  lemma ListedWithout(cs: seq<Client>, next: nat, i: nat, id: nat)
    requires IdsOk(cs, next) && i < |cs|
    ensures Listed(Without(cs, i), id) <==> Listed(cs, id) && cs[i].id != id
  {
    var rest := Without(cs, i);
    assert forall k :: 0 <= k < i ==> rest[k] == cs[k];
    assert forall k :: i <= k < |rest| ==> rest[k] == cs[k + 1];
    if Listed(cs, id) && cs[i].id != id {
      var k :| 0 <= k < |cs| && cs[k].id == id;
      assert rest[if k < i then k else k - 1].id == id;
    }
    if Listed(rest, id) {
      var k :| 0 <= k < |rest| && rest[k].id == id;
      var j := if k < i then k else k + 1;
      assert cs[j].id == id && j != i;
      assert if j < i then cs[j].id != cs[i].id else cs[i].id != cs[j].id;
    }
  }

  lemma ListedVote(cs: seq<Client>, i: nat, m: Mode, id: nat)
    requires i < |cs|
    ensures Listed(WithVote(cs, i, m), id) <==> Listed(cs, id)
  {
    assert forall k :: 0 <= k < |cs| ==> WithVote(cs, i, m)[k].id == cs[k].id;
  }

  lemma DestroyPrimary(r: Rsc, i: nat, env: Env)
    requires IdsKnown(r) && i < |r.clients|
    ensures var r' := Destroy(r, i, env); r'.primary == r.primary && r'.nextId == r.nextId
    ensures PrimaryListed(Destroy(r, i, env)) <==> PrimaryListed(r) && r.primary != Some(r.clients[i].id)
  {
    UpdateClients(r, i, Idle, false, true, env);
    if r.primary.Some? {
      var id, voted := r.primary.value, WithVote(r.clients, i, Idle);
      IdsVote(r.clients, r.nextId, i, Idle);
      ListedVote(r.clients, i, Idle, id);
      ListedWithout(voted, r.nextId, i, id);
      assert Without(voted, i) == Without(r.clients, i);
    }
  }

  lemma CreatePrimary(r: Rsc, kind: Kind)
    requires IdsKnown(r)
    ensures IdsKnown(Create(r, kind))
    ensures PrimaryListed(Create(r, kind)) <==> kind == Primary || PrimaryListed(r)
  {
    var cs := Create(r, kind).clients;
    assert cs[0].id == r.nextId && forall k :: 0 < k < |cs| ==> cs[k] == r.clients[k - 1];
    assert forall k :: 0 <= k < |r.clients| ==> r.clients[k] == cs[k + 1];
  }

  lemma StepPrimary(r: Rsc, ev: Event)
    requires IdsKnown(r)
    ensures IdsKnown(Apply(r, ev))
    ensures PrimaryListed(Apply(r, ev)) <==>
            (ev.ECreate? && ev.kind == Primary) || (PrimaryListed(r) && !DestroysPrimary(r, ev))
  {
    ApplyWellFormed(r, ev);
    match ev
    case ECreate(k) => CreatePrimary(r, k);
    case EUpdate(i, m, cfg, w, env) =>
      if i < |r.clients| {
        UpdateClients(r, i, m, cfg, w, env);
        if r.primary.Some? { ListedVote(r.clients, i, m, r.primary.value); }
      }
    case EDestroy(i, env) => if i < |r.clients| { DestroyPrimary(r, i, env); }
    case _ =>
  }

  /** In every run primary_client is NULL or a listed client exactly unless the primary
      was destroyed and not replaced: destroying it leaves the pointer behind. */
  lemma {:induction false} RunPrimaryIff(r: Rsc, lost: bool, evs: seq<Event>)
    requires IdsKnown(r) && (PrimaryListed(r) <==> !lost)
    ensures PrimaryListed(Run(r, evs)) <==> !Lost(r, lost, evs)
    decreases |evs|
  {
    if evs != [] {
      StepPrimary(r, evs[0]);
      RunPrimaryIff(Apply(r, evs[0]), LostAfter(r, lost, evs[0]), evs[1..]);
    }
  }

  /** The shortest such run: a primary client comes and goes. */
  lemma DestroyedPrimaryDangles(env: Env)
    ensures var r := Destroy(Create(Start(true, true), Primary), 0, env);
      r.primary == Some(0) && r.clients == [] && !PrimaryListed(r)
  {
  }

  // ---------- A hidden failure ----------

  /** The plain case: a clock request. The failure is reported as success and the
      mode moves to clock. */
  lemma PendingVsyncHidesHwFailure(r: Rsc, i: nat, hasWaitPtr: bool, env: Env)
    requires i < |r.clients| && r.bound && r.mode != Clk && !env.hwOk
    requires r.vsyncWait > 0 && env.vsyncLeft == 0
    requires var v := Scan(WithVote(r.clients, i, Clk)); v.external || (!v.vid && !v.cmd)
    ensures var (u, rc) := Update(r, i, Clk, false, hasWaitPtr, env); rc == Ok && u.mode == Clk
  {
    var voted := r.(clients := WithVote(r.clients, i, Clk));
    assert SwitchToClk(voted, hasWaitPtr, env) == (Ok, 0);
  }

  // ---------- The imperative code ----------

  lemma SwitchIgnoresPower(r: Rsc, p: Power, caller: nat, m: Mode, hasWaitPtr: bool, env: Env)
    ensures Switch(r.(power := p), caller, m, hasWaitPtr, env) == Switch(r, caller, m, hasWaitPtr, env)
  {
    PanelModeIgnoresPower(r, p, env);
    assert SwitchToClk(r.(power := p), hasWaitPtr, env) == SwitchToClk(r, hasWaitPtr, env);
    assert m == Idle ==> SwitchToIdle(r.(power := p), hasWaitPtr, env) == SwitchToIdle(r, hasWaitPtr, env);
  }

  lemma PanelModeIgnoresPower(r: Rsc, p: Power, env: Env)
    ensures forall t, c :: SwitchToPanelMode(r.(power := p), t, c, env) == SwitchToPanelMode(r, t, c, env)
  {
  }

  class SdeRsc {
    const bound: bool
    const hasHwOp: bool
    var clients: seq<Client>
    var primary: Option<nat>
    var nextId: nat
    var mode: Mode
    var vsyncWait: nat
    var refcount: nat
    var vregOn: bool
    var busOn: bool
    var clkOn: bool
    ghost var enableFailed: bool

    ghost function PowerNow(): Power reads this { Power(refcount, vregOn, busOn, clkOn, enableFailed) }

    ghost function Now(): Rsc reads this {
      Rsc(clients, primary, nextId, mode, vsyncWait, bound, hasHwOp, PowerNow())
    }

    constructor (bound: bool, hasHwOp: bool)
      ensures Now() == Start(bound, hasHwOp)
    {
      this.bound, this.hasHwOp := bound, hasHwOp;
      clients, primary, nextId, mode, vsyncWait := [], None, 0, Idle, 0;
      refcount, vregOn, busOn, clkOn, enableFailed := 0, false, false, false, false;
    }

    method ClientCreate(kind: Kind) returns (id: nat)
      modifies this
      ensures Now() == Create(old(Now()), kind) && id == old(nextId)
    {
      id := nextId;
      if kind == Primary { primary := Some(id); }
      clients := [Client(id, kind, Idle)] + clients;
      nextId := nextId + 1;
    }

    method ExternalBlocks() returns (blocked: bool)
      ensures blocked == Scan(clients).external
    {
      blocked := false;
      var k := 0;
      while k < |clients| && !blocked
        invariant k <= |clients| && blocked == Scan(clients[..k]).external
      {
        assert clients[..k + 1][..k] == clients[..k];
        blocked := clients[k].mode == Clk && clients[k].kind == External;
        k := k + 1;
      }
      ScanMeaning(clients[..k]);
      ScanMeaning(clients);
      assert clients[..|clients|] == clients;
    }

    method ScanVotes() returns (external: bool, clock: bool, vid: bool, cmd: bool)
      ensures Votes(external, clock, vid, cmd) == Scan(clients)
    {
      external, clock, vid, cmd := false, false, false, false;
      for k := 0 to |clients|
        invariant Votes(external, clock, vid, cmd) == Scan(clients[..k])
      {
        assert clients[..k + 1][..k] == clients[..k];
        if clients[k].mode == Clk && clients[k].kind == External {
          external := true;
        } else if clients[k].mode == Clk && clients[k].kind == Clock {
          clock := true;
        } else if clients[k].mode == Vid {
          vid := true;
        } else if clients[k].mode == Cmd {
          cmd := true;
        }
      }
      assert clients[..|clients|] == clients;
    }

    method SwitchPanelMode(target: Mode, caller: Option<nat>, env: Env) returns (rc: Rc)
      ensures rc == SwitchToPanelMode(Now(), target, caller, env)
    {
      if primary.None? { return Err; }
      if caller != primary { return Err; }
      if mode == target { return Ok; }
      var blocked := ExternalBlocks();
      if blocked { return NotAllowed; }
      rc := NotAllowed;
      if hasHwOp { rc := if env.hwOk then Ok else Err; }
    }

    method SwitchClk(hasWaitPtr: bool, env: Env) returns (rc: Rc)
      modifies `vsyncWait
      ensures (rc, vsyncWait) == SwitchToClk(old(Now()), hasWaitPtr, env)
    {
      rc := NotAllowed;
      var external, _, vid, cmd := ScanVotes();
      if !external && (vid || cmd) { return; }
      if hasHwOp { rc := if env.hwOk then Ok else Err; }
      if rc == Ok && primary.Some? && (mode == Cmd || mode == Vid) {
        if hasWaitPtr { vsyncWait := vsyncWait + 1; }
      } else if vsyncWait != 0 {
        vsyncWait := env.vsyncLeft;
        rc := if vsyncWait == 0 then Ok else TimedOut;
      }
    }

    method SwitchIdle(hasWaitPtr: bool, env: Env) returns (rc: Rc)
      modifies `vsyncWait
      ensures (rc, vsyncWait) == SwitchToIdle(old(Now()), hasWaitPtr, env)
    {
      rc := NotAllowed;
      var external, clock, vid, cmd := ScanVotes();
      if vid && !external {
        rc := SwitchPanelMode(Vid, primary, env);
        if rc == Ok { rc := VidSwitched; }
      } else if cmd && !external {
        rc := SwitchPanelMode(Cmd, primary, env);
        if rc == Ok { rc := CmdSwitched; }
      } else if clock {
        rc := SwitchClk(hasWaitPtr, env);
        if rc == Ok { rc := ClkSwitched; }
      } else if hasHwOp {
        rc := if env.hwOk then Ok else Err;
      }
    }

    method EnableResources(env: Env) returns (ok: bool)
      modifies `refcount, `vregOn, `busOn, `clkOn
      ensures (PowerNow(), ok) == ResourceEnable(old(PowerNow()), env)
    {
      refcount := refcount + 1;
      if refcount != 1 { return true; }
      ok := env.vregOk;
      if ok {
        vregOn := true;
        ok := env.busOk;
        if ok {
          busOn := true;
          ok := env.clkOk;
          if ok {
            clkOn := true;
            return;
          }
          busOn := false;
        }
        vregOn := false;
      }
      refcount := refcount - 1;
    }

    method DisableResources()
      modifies `refcount, `vregOn, `busOn, `clkOn
      ensures PowerNow() == ResourceDisable(old(PowerNow()))
    {
      if refcount == 0 { return; }
      refcount := refcount - 1;
      if refcount != 0 { return; }
      clkOn := false;
      busOn := false;
      vregOn := false;
    }

    method SwitchMode(caller: nat, m: Mode, hasWaitPtr: bool, env: Env) returns (rc: Rc, target: Mode)
      modifies `vsyncWait
      ensures (rc, vsyncWait, target) == Switch(old(Now()), caller, m, hasWaitPtr, env)
    {
      target := m;
      match m {
        case Idle =>
          rc := SwitchIdle(hasWaitPtr, env);
          if rc == CmdSwitched {
            target, rc := Cmd, Ok;
          } else if rc == VidSwitched {
            target, rc := Vid, Ok;
          } else if rc == ClkSwitched {
            target, rc := Clk, Ok;
          }
        case Clk =>
          rc := SwitchClk(hasWaitPtr, env);
        case _ =>
          rc := SwitchPanelMode(m, Some(caller), env);
      }
    }

    method WakeIfIdle(env: Env)
      modifies `refcount, `vregOn, `busOn, `clkOn, `enableFailed
      ensures PowerNow() == PowerAwake(old(PowerNow()), mode, env)
    {
      if mode == Idle {
        var ok := EnableResources(env);
        enableFailed := !ok;
      }
    }

    /** Records a successful switch and drops the resources when it ends in idle. */
    method Conclude(switched: Rc, target: Mode) returns (rc: Rc)
      modifies `mode, `refcount, `vregOn, `busOn, `clkOn
      ensures mode == (if switched == Ok then target else old(mode))
      ensures PowerNow() == if mode == Idle then ResourceDisable(old(PowerNow())) else old(PowerNow())
      ensures rc == if switched == NotAllowed then Ok else switched
    {
      rc := switched;
      if rc == NotAllowed {
        rc := Ok;
      } else if rc == Ok {
        mode := target;
      }
      if mode == Idle { DisableResources(); }
    }

    method Resolve(caller: nat, m: Mode, hasWaitPtr: bool, env: Env) returns (rc: Rc)
      modifies this
      ensures (Now(), rc) == Settle(old(Now()), Switch(old(Now()), caller, m, hasWaitPtr, env), env)
    {
      WakeIfIdle(env);
      SwitchIgnoresPower(old(Now()), PowerNow(), caller, m, hasWaitPtr, env);
      var switched, target := SwitchMode(caller, m, hasWaitPtr, env);
      rc := Conclude(switched, target);
    }

    method ClientStateUpdate(i: nat, m: Mode, hasConfig: bool, hasWaitPtr: bool, env: Env) returns (rc: Rc)
      requires i < |clients|
      modifies this
      ensures (Now(), rc) == Update(old(Now()), i, m, hasConfig, hasWaitPtr, env)
    {
      clients := clients[i := clients[i].(mode := m)];
      if !bound { return Err; }
      if mode == m && !hasConfig { return Ok; }
      rc := Resolve(clients[i].id, m, hasWaitPtr, env);
    }

    /** tcsOk: the command set is free; only a vote that is sent waits for it. */
    method ClientTriggerVote(delta: bool, tcsOk: bool, env: Env) returns (ok: bool)
      modifies this
      ensures Now() == TriggerVote(old(Now()), env)
      ensures ok <==> ResourceEnable(old(PowerNow()), env).1 && (delta ==> tcsOk)
    {
      ok := EnableResources(env);
      if !ok { return; }
      if delta { ok := tcsOk; }
      DisableResources();
    }

    method ClientDestroy(i: nat, env: Env)
      requires i < |clients|
      modifies this
      ensures Now() == Destroy(old(Now()), i, env)
    {
      if clients[i].mode != Idle {
        var _ := ClientStateUpdate(i, Idle, false, true, env);
      }
      clients := clients[..i] + clients[i + 1..];
    }
  }
}
