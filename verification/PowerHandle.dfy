/**
 Power on and off with rollback: the regulator and clock loops of sde_io_util.c
 and the staged enable of sde_power_handle.c. Counts and votes are what the
 regulator, clock and bus frameworks hold. Every acquisition may fail, and so may
 every release but that of a clock, which returns nothing.
 */
module PowerHandle {
  import opened Common

  const DBUS_MAX := 3
  const VOTE_DISABLE := 0
  const VOTE_LOW := 1

  /** How enabling one regulator goes: its handle is an error pointer, setting
      its load fails, or the enable itself fails. */
  datatype VregOutcome = VregOk | BadHandle | LoadFails | EnableFails

  /** A regulator under hardware control is skipped, after its handle is checked. */
  predicate VregGoesWell(hw: bool, o: VregOutcome) { if hw then o != BadHandle else o == VregOk }

  /** The first regulator that fails, or the number of regulators. */
  function FirstBadVreg(hw: seq<bool>, os: seq<VregOutcome>): (f: nat)
    requires |hw| == |os|
    ensures f <= |hw| && (f < |hw| ==> !VregGoesWell(hw[f], os[f]))
    ensures forall i :: 0 <= i < f ==> VregGoesWell(hw[i], os[i])
  {
    if hw == [] || !VregGoesWell(hw[0], os[0]) then 0 else FirstBadVreg(hw[1..], os[1..]) + 1
  }

  function FirstBad(oks: seq<bool>): (f: nat)
    ensures f <= |oks| && (f < |oks| ==> !oks[f]) && forall i :: 0 <= i < f ==> oks[i]
  {
    if oks == [] || !oks[0] then 0 else FirstBad(oks[1..]) + 1
  }

  /** What sde_rsc_client_state_update does with the vote: takes it, turns it down
      before recording it, or fails after recording it. */
  datatype RscOutcome = RscOk | RscRefused | RscFailedRecorded

  /** Answers to the acquisitions of one power-on. */
  datatype Plan = Plan(dbus: seq<bool>, vreg: seq<VregOutcome>, regBus: bool, rsc: RscOutcome, clk: seq<bool>)

  /** Answers to the releases of its rollback, or of a power-off. */
  datatype Releases = Releases(dbus: seq<bool>, vreg: seq<bool>, regBus: bool, rsc: RscOutcome)

  datatype Stage = DataBus | Vreg | RegBus | Rsc | Clk | Done

  /** The use case a new quota is put in: slot 0 is "off", the others take turns. */
  function NextUseCase(curr: nat, useCases: nat, off: bool): nat
    requires useCases > 1
  {
    if off then 0 else curr % (useCases - 1) + 1
  }

  /** The bus driver only looks at a request whose index changed. A quota always moves
      to another slot exactly when there are two slots to take turns (or it was off). */
  lemma NextUseCaseMoves(curr: nat, useCases: nat)
    requires 1 < useCases && curr < useCases
    ensures 0 < NextUseCase(curr, useCases, false) < useCases
    ensures NextUseCase(curr, useCases, false) != curr <==> curr == 0 || useCases > 2
  {
    if curr == useCases - 1 {
      assert curr % (useCases - 1) == 0;
    } else {
      assert curr % (useCases - 1) == curr;
    }
  }

  /** A data bus: whether it has a handle and a usable bandwidth table, and the
      number of use cases in it. */
  datatype Bus = Bus(handle: bool, table: bool, useCases: nat)

  class Power {
    const hw: seq<bool>        // regulator i is under hardware control
    const present: seq<bool>   // clock i exists
    const buses: seq<Bus>
    const hasRsc: bool         // an RSC client was created
    const hasRegBus: bool      // the register bus has a handle
    var vreg: seq<int>         // enable count of each regulator
    var clk: seq<int>          // enable count of each clock
    var dbus: seq<nat>         // use case voted on each data bus
    var uc: seq<nat>           // curr_bw_uc_idx
    var regBus: nat            // register bus vote
    var rscClk: bool           // the RSC client votes for clock state

    ghost predicate Valid() reads this {
      && |vreg| == |hw| && |clk| == |present|
      && |dbus| == |uc| == |buses| == DBUS_MAX
      && (forall i :: 0 <= i < DBUS_MAX ==> buses[i].useCases > 1 && uc[i] < buses[i].useCases)
    }

    ghost predicate Disabled() reads this {
      regBus == VOTE_DISABLE && !rscClk && forall i :: 0 <= i < |dbus| ==> dbus[i] == 0
    }

    ghost predicate Fits(p: Plan) { |p.dbus| == |buses| == DBUS_MAX && |p.vreg| == |hw| && |p.clk| == |present| }

    ghost predicate Covers(q: Releases) { |q.dbus| == |buses| == DBUS_MAX && |q.vreg| == |hw| }

    /** The data buses voted for: up to the first without a handle. */
    ghost function Voters(): (n: nat)
      requires |buses| == DBUS_MAX
      ensures n <= DBUS_MAX && (forall i :: 0 <= i < n ==> buses[i].handle) && (n < DBUS_MAX ==> !buses[n].handle)
    {
      var handles := seq(DBUS_MAX, i requires 0 <= i < |buses| => buses[i].handle);
      assert forall i :: 0 <= i < DBUS_MAX ==> handles[i] == buses[i].handle;
      FirstBad(handles)
    }

    /** The first bus whose vote fails, for want of a table or by the driver. */
    ghost function FirstRefusal(oks: seq<bool>): (n: nat)
      requires |buses| == |oks| == DBUS_MAX
      ensures n <= DBUS_MAX && (forall i :: 0 <= i < n ==> buses[i].table && oks[i])
      ensures n < DBUS_MAX ==> !(buses[n].table && oks[n])
    {
      var answers := seq(DBUS_MAX, i requires 0 <= i < DBUS_MAX => buses[i].table && oks[i]);
      assert forall i :: 0 <= i < DBUS_MAX ==> answers[i] == (buses[i].table && oks[i]);
      FirstBad(answers)
    }

    /** The step of power-on that fails first. */
    ghost function FailsAt(p: Plan): Stage
      requires Fits(p)
    {
      if FirstRefusal(p.dbus) < Voters() then DataBus
      else if FirstBadVreg(hw, p.vreg) < |hw| then Vreg
      else if hasRegBus && !p.regBus then RegBus
      else if hasRsc && p.rsc != RscOk then Rsc
      else if exists i :: 0 <= i < |present| && !(present[i] && p.clk[i]) then Clk
      else Done
    }

    // ---------- When each resource comes back ----------

    /** The withdrawal of every vote that was placed is accepted. */
    ghost predicate BusesBack(p: Plan, q: Releases)
      requires Fits(p) && Covers(q)
    {
      forall i :: 0 <= i < (if FailsAt(p) == DataBus then FirstRefusal(p.dbus) else Voters()) ==> q.dbus[i]
    }

    /** A failing regulator loop releases all earlier ones, hardware-controlled or not;
        every other way off releases only those under software control. */
    ghost predicate VregsBack(p: Plan, q: Releases)
      requires Fits(p) && Covers(q)
    {
      match FailsAt(p)
      case DataBus => true
      case Vreg => forall i :: 0 <= i < FirstBadVreg(hw, p.vreg) ==> q.vreg[i] == !hw[i]
      case _ => forall i :: 0 <= i < |hw| ==> hw[i] || q.vreg[i]
    }

    ghost predicate RegBusBack(p: Plan, q: Releases)
      requires Fits(p)
    {
      hasRegBus && (FailsAt(p) == Rsc || FailsAt(p) == Clk || FailsAt(p) == Done) ==> q.regBus
    }

    /** An RSC update that fails after recording the vote is not taken back. */
    ghost predicate RscBack(p: Plan, q: Releases)
      requires Fits(p)
    {
      && (FailsAt(p) == Rsc ==> p.rsc != RscFailedRecorded)
      && (hasRsc && (FailsAt(p) == Clk || FailsAt(p) == Done) ==> q.rsc != RscRefused)
    }

    constructor (hw: seq<bool>, present: seq<bool>, buses: seq<Bus>, hasRsc: bool, hasRegBus: bool)
      requires |buses| == DBUS_MAX && forall i :: 0 <= i < DBUS_MAX ==> buses[i].useCases > 1
      ensures Valid() && Disabled()
      ensures this.hw == hw && this.present == present && this.buses == buses
      ensures this.hasRsc == hasRsc && this.hasRegBus == hasRegBus
      ensures forall i :: 0 <= i < |vreg| ==> vreg[i] == 0
    {
      this.hw, this.present, this.buses, this.hasRsc, this.hasRegBus := hw, present, buses, hasRsc, hasRegBus;
      vreg, clk := seq(|hw|, _ => 0), seq(|present|, _ => 0);
      dbus, uc := seq(|buses|, _ => 0), seq(|buses|, _ => 0);
      regBus, rscClk := VOTE_DISABLE, false;
    }

    // ---------- Data buses ----------

    /** Without a handle, or for a quota without a table, nothing is asked. Otherwise
        the slot index moves even when the bus driver turns the request down. */
    method SetQuota(i: nat, off: bool, accepted: bool) returns (ok: bool)
      requires Valid() && i < DBUS_MAX
      modifies `dbus, `uc
      ensures Valid()
      ensures var asked := buses[i].handle && (off || buses[i].table);
        && ok == (asked && accepted)
        && uc == (if asked then old(uc)[i := NextUseCase(old(uc)[i], buses[i].useCases, off)] else old(uc))
        && dbus == if ok then old(dbus)[i := uc[i]] else old(dbus)
    {
      if !buses[i].handle { return false; }
      if !off && !buses[i].table { return false; }
      if !off { NextUseCaseMoves(uc[i], buses[i].useCases); }
      uc := uc[i := NextUseCase(uc[i], buses[i].useCases, off)];
      ok := accepted;
      if ok { dbus := dbus[i := uc[i]]; }
    }

    /** The vote loop of power-on; n is the bus it stopped at. */
    method VoteBuses(oks: seq<bool>) returns (n: nat, ok: bool)
      requires Valid() && |oks| == DBUS_MAX
      modifies `dbus, `uc
      ensures Valid()
      ensures ok <==> FirstRefusal(oks) >= Voters()
      ensures n == if ok then Voters() else FirstRefusal(oks)
      ensures forall i :: 0 <= i < n ==> dbus[i] == uc[i] > 0
      ensures forall i :: n <= i < DBUS_MAX ==> dbus[i] == old(dbus)[i]
    {
      n := 0;
      while n < DBUS_MAX && buses[n].handle
        invariant n <= Voters() && n <= FirstRefusal(oks) && Valid()
        invariant forall i :: 0 <= i < n ==> dbus[i] == uc[i] > 0
        invariant forall i :: n <= i < DBUS_MAX ==> dbus[i] == old(dbus)[i]
      {
        NextUseCaseMoves(uc[n], buses[n].useCases);
        ok := SetQuota(n, false, oks[n]);
        if !ok { return; }
        n := n + 1;
      }
      ok := true;
    }

    /** Withdraw the votes of the buses below n, from the last to the first; power-off
        passes over buses without a handle, the rollback stops at one. */
    method UnvoteBuses(n: nat, stopAtGap: bool, oks: seq<bool>)
      requires Valid() && |oks| == DBUS_MAX && n <= DBUS_MAX && (stopAtGap ==> n <= Voters())
      modifies `dbus, `uc
      ensures Valid()
      ensures forall i :: 0 <= i < DBUS_MAX ==>
                dbus[i] == if i < n && buses[i].handle && oks[i] then 0 else old(dbus)[i]
    {
      var i := n;
      while i > 0 && (!stopAtGap || buses[i - 1].handle)
        invariant 0 <= i <= n && Valid()
        invariant forall k :: 0 <= k < DBUS_MAX ==>
                    dbus[k] == if i <= k < n && buses[k].handle && oks[k] then 0 else old(dbus)[k]
      {
        i := i - 1;
        if buses[i].handle { var _ := SetQuota(i, true, oks[i]); }
      }
    }

    // ---------- Power on and off ----------

    /** Power-on. A failure at any step gives back every clock count always, and each
        of the others exactly when its condition above holds. */
    method Enable(p: Plan, q: Releases) returns (ok: bool)
      requires Valid() && Disabled() && Fits(p) && Covers(q)
      modifies this
      ensures Valid()
      ensures ok <==> FailsAt(p) == Done
      ensures ok ==> (forall i :: 0 <= i < |clk| ==> clk[i] == old(clk)[i] + 1)
      ensures ok ==> (forall i :: 0 <= i < |vreg| ==> vreg[i] == old(vreg)[i] + if hw[i] then 0 else 1)
      ensures ok ==> regBus == (if hasRegBus then VOTE_LOW else VOTE_DISABLE) && rscClk == hasRsc
      ensures ok ==> (forall i :: 0 <= i < DBUS_MAX ==> if i < Voters() then dbus[i] > 0 else dbus[i] == 0)
      ensures !ok ==> clk == old(clk) && (dbus == old(dbus) <==> BusesBack(p, q))
      ensures !ok ==> (vreg == old(vreg) <==> VregsBack(p, q))
      ensures !ok ==> (regBus == old(regBus) <==> RegBusBack(p, q)) && (rscClk == old(rscClk) <==> RscBack(p, q))
    {
      var n;
      n, ok := VoteBuses(p.dbus);
      if ok { ok := EnableSupplies(p, q); }
      if !ok { UndoBuses(n, q.dbus, old(dbus)); }
    }

    /** Power-on from the regulators up, on the buses' votes. */
    method EnableSupplies(p: Plan, q: Releases) returns (ok: bool)
      requires Valid() && Fits(p) && Covers(q) && FirstRefusal(p.dbus) >= Voters()
      requires regBus == VOTE_DISABLE && !rscClk
      modifies `vreg, `regBus, `rscClk, `clk
      ensures Valid()
      ensures ok <==> FailsAt(p) == Done
      ensures ok ==> (forall i :: 0 <= i < |clk| ==> clk[i] == old(clk)[i] + 1)
      ensures ok ==> (forall i :: 0 <= i < |vreg| ==> vreg[i] == old(vreg)[i] + if hw[i] then 0 else 1)
      ensures ok ==> regBus == (if hasRegBus then VOTE_LOW else VOTE_DISABLE) && rscClk == hasRsc
      ensures !ok ==> clk == old(clk) && (vreg == old(vreg) <==> VregsBack(p, q))
      ensures !ok ==> (regBus == VOTE_DISABLE <==> RegBusBack(p, q)) && (!rscClk <==> RscBack(p, q))
    {
      ok := EnableVreg(p.vreg, q.vreg);
      if ok {
        ok := EnableClocks(p, q);
        if !ok { UndoRegulators(q.vreg, old(vreg)); }
      }
    }

    /** Power-on from the register bus up. */
    method EnableClocks(p: Plan, q: Releases) returns (ok: bool)
      requires Valid() && Fits(p) && regBus == VOTE_DISABLE && !rscClk
      requires FirstRefusal(p.dbus) >= Voters() && FirstBadVreg(hw, p.vreg) == |hw|
      modifies `regBus, `rscClk, `clk
      ensures Valid()
      ensures ok <==> FailsAt(p) == Done
      ensures ok ==> (forall i :: 0 <= i < |clk| ==> clk[i] == old(clk)[i] + 1)
      ensures ok ==> regBus == (if hasRegBus then VOTE_LOW else VOTE_DISABLE) && rscClk == hasRsc
      ensures !ok ==> FailsAt(p) != DataBus && FailsAt(p) != Vreg && clk == old(clk)
      ensures !ok ==> (regBus == VOTE_DISABLE <==> RegBusBack(p, q)) && (!rscClk <==> RscBack(p, q))
    {
      if hasRegBus && !p.regBus { return false; }
      if hasRegBus { regBus := VOTE_LOW; }
      if hasRsc { rscClk := p.rsc != RscRefused; }
      if hasRsc && p.rsc != RscOk {
        ReleaseRegBus(q.regBus);
        return false;
      }
      ok := EnableClk(|present|, true, p.clk);
      if !ok {
        ReleaseRsc(q.rsc);
        ReleaseRegBus(q.regBus);
      }
    }

    method ReleaseRegBus(ok: bool)
      modifies `regBus
      ensures regBus == if hasRegBus && ok then VOTE_DISABLE else old(regBus)
    {
      if hasRegBus && ok { regBus := VOTE_DISABLE; }
    }

    method ReleaseRsc(o: RscOutcome)
      modifies `rscClk
      ensures rscClk == (old(rscClk) && !(hasRsc && o != RscRefused))
    {
      if hasRsc && o != RscRefused { rscClk := false; }
    }

    method UndoBuses(n: nat, oks: seq<bool>, ghost was: seq<nat>)
      requires Valid() && n <= Voters() && |oks| == |was| == DBUS_MAX
      requires forall i :: 0 <= i < DBUS_MAX ==> was[i] == 0 && if i < n then dbus[i] > 0 else dbus[i] == 0
      modifies `dbus, `uc
      ensures Valid() && (dbus == was <==> forall i :: 0 <= i < n ==> oks[i])
    {
      UnvoteBuses(n, true, oks);
      if i :| 0 <= i < n && !oks[i] { assert dbus[i] != was[i]; }
    }

    method UndoRegulators(oks: seq<bool>, ghost was: seq<int>)
      requires Valid() && |was| == |hw| == |oks|
      requires forall i :: 0 <= i < |hw| ==> vreg[i] == was[i] + if hw[i] then 0 else 1
      modifies `vreg
      ensures Valid() && (vreg == was <==> forall i :: 0 <= i < |hw| ==> hw[i] || oks[i])
    {
      DisableVreg(oks);
      if i :| 0 <= i < |hw| && !hw[i] && !oks[i] { assert vreg[i] != was[i]; }
    }

    /** Power-off, in the opposite order. */
    method Disable(q: Releases)
      requires Valid() && Covers(q)
      modifies this
      ensures Valid()
      ensures forall i :: 0 <= i < |clk| ==> clk[i] == old(clk)[i] - if present[i] then 1 else 0
      ensures forall i :: 0 <= i < |vreg| ==> vreg[i] == old(vreg)[i] - if !hw[i] && q.vreg[i] then 1 else 0
      ensures regBus == if hasRegBus && q.regBus then VOTE_DISABLE else old(regBus)
      ensures rscClk == (old(rscClk) && !(hasRsc && q.rsc != RscRefused))
      ensures forall i :: 0 <= i < DBUS_MAX ==> dbus[i] == if buses[i].handle && q.dbus[i] then 0 else old(dbus)[i]
    {
      ReleaseRsc(q.rsc);
      var _ := EnableClk(|present|, false, []);
      ReleaseRegBus(q.regBus);
      DisableVreg(q.vreg);
      UnvoteBuses(DBUS_MAX, false, q.dbus);
    }

    /** A power-on followed, when it worked, by a power-off: every clock count comes
        back, and each of the others under the same condition as after a failure. With
        releases that succeed and no hardware-controlled regulator that is everything,
        except an RSC vote recorded by an update that failed. */
    method PowerCycle(p: Plan, q: Releases)
      requires Valid() && Disabled() && Fits(p) && Covers(q)
      modifies this
      ensures Valid()
      ensures clk == old(clk)
      ensures dbus == old(dbus) <==> BusesBack(p, q)
      ensures vreg == old(vreg) <==> VregsBack(p, q)
      ensures regBus == old(regBus) <==> RegBusBack(p, q)
      ensures rscClk == old(rscClk) <==> RscBack(p, q)
    {
      var ok := Enable(p, q);
      if ok {
        ghost var was := old(dbus);
        Disable(q);
        assert clk == old(clk);
        if i :| 0 <= i < Voters() && !q.dbus[i] { assert dbus[i] != was[i]; }
        if i :| 0 <= i < |hw| && !hw[i] && !q.vreg[i] { assert vreg[i] != old(vreg)[i]; }
      }
    }

    // ---------- The loops of sde_io_util.c ----------

    /** A failure releases every earlier regulator, hardware-controlled or not, so the
        counts come back exactly when just the software-controlled releases succeed. */
    method EnableVreg(os: seq<VregOutcome>, off: seq<bool>) returns (ok: bool)
      requires Valid() && |os| == |off| == |hw|
      modifies `vreg
      ensures Valid()
      ensures ok <==> FirstBadVreg(hw, os) == |hw|
      ensures ok ==> forall i :: 0 <= i < |hw| ==> vreg[i] == old(vreg)[i] + if hw[i] then 0 else 1
      ensures !ok ==> forall i :: FirstBadVreg(hw, os) <= i < |hw| ==> vreg[i] == old(vreg)[i]
      ensures !ok ==> forall i :: 0 <= i < FirstBadVreg(hw, os) ==>
                vreg[i] == old(vreg)[i] + (if hw[i] then 0 else 1) - if off[i] then 1 else 0
      ensures !ok ==> (vreg == old(vreg) <==> forall i :: 0 <= i < FirstBadVreg(hw, os) ==> off[i] == !hw[i])
    {
      var i := 0;
      while i < |hw| && VregGoesWell(hw[i], os[i])
        invariant i <= FirstBadVreg(hw, os) && |vreg| == |hw|
        invariant forall k :: 0 <= k < |hw| ==> vreg[k] == old(vreg)[k] + if k < i && !hw[k] then 1 else 0
      {
        if !hw[i] { vreg := vreg[i := vreg[i] + 1]; }
        i := i + 1;
      }
      if i == |hw| { return true; }
      ghost var f := i;
      while i > 0
        invariant 0 <= i <= f && |vreg| == |hw|
        invariant forall k :: 0 <= k < |hw| ==>
                    vreg[k] == old(vreg)[k] + (if k < f && !hw[k] then 1 else 0) - if i <= k < f && off[k] then 1 else 0
      {
        i := i - 1;
        if off[i] { vreg := vreg[i := vreg[i] - 1]; }
      }
      if k :| 0 <= k < f && off[k] != !hw[k] { assert vreg[k] != old(vreg)[k]; }
      return false;
    }

    method DisableVreg(off: seq<bool>)
      requires Valid() && |off| == |hw|
      modifies `vreg
      ensures Valid()
      ensures forall i :: 0 <= i < |hw| ==> vreg[i] == old(vreg)[i] - if !hw[i] && off[i] then 1 else 0
    {
      var i := |hw|;
      while i > 0
        invariant 0 <= i <= |hw| && |vreg| == |hw|
        invariant forall k :: 0 <= k < |hw| ==> vreg[k] == old(vreg)[k] - if k >= i && !hw[k] && off[k] then 1 else 0
      {
        i := i - 1;
        if !hw[i] && off[i] { vreg := vreg[i := vreg[i] - 1]; }
      }
    }

    /** msm_dss_enable_clk on the first n clocks; a failing enable calls itself to
        disable the ones before it. */
    method EnableClk(n: nat, enable: bool, oks: seq<bool>) returns (ok: bool)
      requires Valid() && n <= |present| && (enable ==> |oks| == n)
      modifies `clk
      ensures Valid() && clk[n..] == old(clk)[n..]
      ensures ok <==> !enable || forall i :: 0 <= i < n ==> present[i] && oks[i]
      ensures !enable ==> forall i :: 0 <= i < n ==> clk[i] == old(clk)[i] - if present[i] then 1 else 0
      ensures enable && ok ==> forall i :: 0 <= i < n ==> clk[i] == old(clk)[i] + 1
      ensures enable && !ok ==> clk == old(clk)
      decreases enable
    {
      ok := true;
      if enable {
        var i := 0;
        while i < n
          invariant i <= n && |clk| == |present| && ok
          invariant forall k :: 0 <= k < i ==> present[k] && oks[k]
          invariant forall k :: 0 <= k < |clk| ==> clk[k] == old(clk)[k] + if k < i then 1 else 0
        {
          if !present[i] || !oks[i] {
            var _ := EnableClk(i, false, []);
            assert forall k :: i <= k < |clk| ==> clk[k] == clk[i..][k - i];
            assert clk == old(clk);
            return false;
          }
          clk := clk[i := clk[i] + 1];
          i := i + 1;
        }
      } else {
        var i := n;
        while i > 0
          invariant 0 <= i <= n && |clk| == |present|
          invariant forall k :: 0 <= k < |clk| ==> clk[k] == old(clk)[k] - if i <= k < n && present[k] then 1 else 0
        {
          i := i - 1;
          if present[i] { clk := clk[i := clk[i] - 1]; }
        }
      }
    }
  }

  // ---------- Inputs on which something is lost ----------

  const NO_BUS := Bus(false, false, 2)

  /** A hardware-controlled regulator followed by one whose enable fails: the first is
      released though it was never taken. */
  method LostRegulator() returns (before: seq<int>, after: seq<int>, ok: bool)
    ensures before == [0, 0] && after != before && !ok
  {
    var power := new Power([true, false], [], [NO_BUS, NO_BUS, NO_BUS], false, false);
    before := power.vreg;
    var p := Plan([true, true, true], [VregOk, EnableFails], true, RscOk, []);
    assert FirstBadVreg(power.hw, p.vreg) == 1;
    var q := Releases([true, true, true], [true, true], true, RscOk);
    assert power.FailsAt(p) == Vreg && !power.VregsBack(p, q) by { assert power.hw[0] && q.vreg[0]; }
    ok := power.Enable(p, q);
    after := power.vreg;
  }

  /** An RSC update that fails after recording the vote: the vote stays. */
  method KeptRscVote() returns (before: bool, after: bool, ok: bool)
    ensures !before && after && !ok
  {
    var power := new Power([], [], [NO_BUS, NO_BUS, NO_BUS], true, false);
    before := power.rscClk;
    var p := Plan([true, true, true], [], true, RscFailedRecorded, []);
    assert power.FailsAt(p) == Rsc;
    ok := power.Enable(p, Releases([true, true, true], [], true, RscOk));
    after := power.rscClk;
  }
}
