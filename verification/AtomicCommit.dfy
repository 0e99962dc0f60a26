/**
 The atomic commit protocol (msm_atomic.c). A commit claims the crtcs and planes
 it touches, is handed to the display thread of its crtc or run in the caller's
 context, and gives the claim back from complete_commit.

 The protocol is a state machine over the steps of all callers and workers. A
 mask is the set of its bit numbers. The heap is separate from the program
 counters: a step that touches or frees a commit which is not on the heap raises
 `faulted`, so use after free and double free are observable.
 */
module AtomicCommit {
  import opened Common

  type Id = nat

  /** disp_thread[j]: the crtc it serves and whether the thread exists. */
  datatype DispThread = DispThread(crtcId: nat, present: bool)

  /** struct msm_commit, with the base ids of the crtcs of its state. */
  datatype Commit = Commit(crtcs: set<nat>, planes: set<nat>, nonblock: bool, crtcIds: seq<nat>)

  /** Where msm_atomic_commit is. */
  datatype Caller =
    | Waiting      // allocated, waiting for the masks
    | Interrupted  // the wait was interrupted, kfree is next
    | Claimed      // masks set, state not swapped yet
    | Swapped      // state swapped, dispatch is next
    | Dispatched(nonblock: bool, queued: bool)  // work queued or not; nonblock read before that
    | Syncing      // running complete_commit in this context
    | Flushing     // blocking, waiting for the queued work
    | Freeing      // blocking, work done, kfree is next
    | Returned     // returned zero
    | Failed       // returned the interrupt error

  /** Where complete_commit is; runner names the worker, None the caller itself. */
  datatype Work =
    | NotQueued
    | Queued(worker: nat)
    | Completing(runner: Option<nat>)
    | Releasing(runner: Option<nat>)  // masks cleared, c->nonblock not looked at yet
    | Finished

  datatype Task = Task(asked: Commit, caller: Caller, work: Work, completed: nat, freed: nat)

  datatype Mark = Swap(id: Id) | Release(id: Id)

  datatype Sys = Sys(
    threads: seq<DispThread>,
    pendingCrtcs: set<nat>,
    pendingPlanes: set<nat>,
    heap: map<Id, Commit>,
    tasks: map<Id, Task>,
    log: seq<Mark>,
    faulted: bool)

  // ---------- Dispatch ----------

  function FirstThread(threads: seq<DispThread>, id: nat): (j: nat)
    ensures j <= |threads|
    ensures j < |threads| ==> threads[j].crtcId == id
    ensures forall k :: 0 <= k < j ==> threads[k].crtcId != id
  {
    if threads == [] then 0
    else if threads[0].crtcId == id then 0
    else FirstThread(threads[1..], id) + 1
  }

  /** The worker a commit is queued on: that of the first crtc with a table
      entry, provided the entry has a thread. */
  function Target(ids: seq<nat>, threads: seq<DispThread>): Option<nat> {
    if ids == [] then None
    else
      var j := FirstThread(threads, ids[0]);
      if j == |threads| then Target(ids[1..], threads)
      else if threads[j].present then Some(j) else None
  }

  ghost predicate Serves(threads: seq<DispThread>, j: nat, id: nat) {
    j < |threads| && threads[j].crtcId == id && forall k :: 0 <= k < j ==> threads[k].crtcId != id
  }

  ghost predicate Unserved(threads: seq<DispThread>, id: nat) {
    forall k :: 0 <= k < |threads| ==> threads[k].crtcId != id
  }

  /** Crtc i is the first with a table entry; its entry j has a thread. */
  ghost predicate Routed(ids: seq<nat>, threads: seq<DispThread>, j: nat, i: nat) {
    && i < |ids| && Serves(threads, j, ids[i]) && threads[j].present
    && forall k :: 0 <= k < i ==> Unserved(threads, ids[k])
  }

  lemma RoutedTail(ids: seq<nat>, threads: seq<DispThread>, j: nat, i: nat)
    requires ids != [] && Unserved(threads, ids[0])
    ensures Routed(ids[1..], threads, j, i) <==> Routed(ids, threads, j, i + 1)
  {
    assert forall k :: 0 <= k < |ids| - 1 ==> ids[1..][k] == ids[k + 1];
    assert forall k :: 0 < k < |ids| ==> ids[k] == ids[1..][k - 1];
  }

  /** Target in words, both directions. */
  lemma {:induction false} TargetMeaning(ids: seq<nat>, threads: seq<DispThread>, j: nat)
    ensures Target(ids, threads) == Some(j) <==> exists i :: Routed(ids, threads, j, i)
  {
    if ids != [] {
      var f := FirstThread(threads, ids[0]);
      if f == |threads| {
        TargetMeaning(ids[1..], threads, j);
        if i: nat :| Routed(ids[1..], threads, j, i) { RoutedTail(ids, threads, j, i); }
        if i: nat :| Routed(ids, threads, j, i) {
          assert i > 0;
          RoutedTail(ids, threads, j, i - 1);
        }
      } else {
        ServedFirst(ids, threads, f, j);
      }
    }
  }

  lemma ServedFirst(ids: seq<nat>, threads: seq<DispThread>, f: nat, j: nat)
    requires ids != [] && Serves(threads, f, ids[0])
    ensures (exists i :: Routed(ids, threads, j, i)) <==> j == f && threads[f].present
  {
    assert !Unserved(threads, ids[0]);
    if j == f && threads[f].present { assert Routed(ids, threads, j, 0); }
  }

  /** The nested loops of msm_atomic_commit_dispatch: `queued` collects the
      workers on which kthread_queue_work is called. */
  method DispatchLoop(ids: seq<nat>, threads: seq<DispThread>) returns (ok: bool, queued: seq<nat>)
    ensures queued == match Target(ids, threads) case Some(j) => [j] case None => []
    ensures ok <==> queued != []
  {
    ok, queued := false, [];
    var i := 0;
    while i < |ids|
      invariant i <= |ids| && !ok && queued == []
      invariant Target(ids, threads) == Target(ids[i..], threads)
    {
      var j := 0;
      while j < |threads| && threads[j].crtcId != ids[i]
        invariant j <= |threads| && forall k :: 0 <= k < j ==> threads[k].crtcId != ids[i]
      {
        j := j + 1;
      }
      if j < |threads| {
        if threads[j].present {
          queued := queued + [j];
          ok := true;
        }
        return;
      }
      i := i + 1;
    }
  }

  // ---------- Steps ----------

  datatype Action =
    | ASubmit(id: Id, commit: Commit)
    | AInterrupt(id: Id)
    | AFreeInterrupted(id: Id)
    | AClaim(id: Id)
    | ASwap(id: Id)
    | ADispatch(id: Id)
    | ADecide(id: Id)
    | ABegin(id: Id)
    | ARelease(id: Id)
    | AFinish(id: Id)
    | AFlushed(id: Id)
    | AFreeBlocking(id: Id)

  predicate WorkerBusy(s: Sys, j: nat) {
    exists c :: c in s.tasks && (s.tasks[c].work == Completing(Some(j)) || s.tasks[c].work == Releasing(Some(j)))
  }

  /** The program counters of the commit allow the step. */
  predicate Ready(t: Task, a: Action) {
    match a
    case ASubmit(_, _) => false
    case AInterrupt(_) => t.caller == Waiting
    case AFreeInterrupted(_) => t.caller == Interrupted
    case AClaim(_) => t.caller == Waiting
    case ASwap(_) => t.caller == Claimed
    case ADispatch(_) => t.caller == Swapped
    case ADecide(_) => t.caller.Dispatched?
    case ABegin(_) => t.work.Queued?
    case ARelease(_) => t.work.Completing?
    case AFinish(_) => t.work.Releasing?
    case AFlushed(_) => t.caller == Flushing && t.work == Finished
    case AFreeBlocking(_) => t.caller == Freeing
  }

  /** Nothing is demanded of the heap. */
  predicate Enabled(s: Sys, a: Action) {
    if a.ASubmit? then a.id !in s.tasks && a.id !in s.heap
    else
      a.id in s.tasks &&
      var t := s.tasks[a.id];
      && Ready(t, a)
      && (a.AClaim? ==> t.asked.crtcs !! s.pendingCrtcs && t.asked.planes !! s.pendingPlanes)
      && (a.ABegin? ==> !WorkerBusy(s, t.work.worker))
  }

  function NextTask(threads: seq<DispThread>, t: Task, a: Action): Task
    requires Ready(t, a)
  {
    match a
    case AInterrupt(_) => t.(caller := Interrupted)
    case AFreeInterrupted(_) => t.(caller := Failed, freed := t.freed + 1)
    case AClaim(_) => t.(caller := Claimed)
    case ASwap(_) => t.(caller := Swapped)
    case ADispatch(_) =>
      (match Target(t.asked.crtcIds, threads)
       case Some(j) => t.(work := Queued(j), caller := Dispatched(t.asked.nonblock, true))
       case None => t.(caller := Dispatched(t.asked.nonblock, false)))
    case ADecide(_) =>
      if !t.caller.queued then t.(work := Completing(None), caller := Syncing)
      else t.(caller := if t.caller.nonblock then Returned else Flushing)
    case ABegin(_) => t.(work := Completing(Some(t.work.worker)))
    case ARelease(_) => t.(work := Releasing(t.work.runner), completed := t.completed + 1)
    case AFinish(_) =>
      t.(work := Finished,
         caller := if t.work.runner.Some? then t.caller else if t.asked.nonblock then Returned else Freeing,
         freed := if t.asked.nonblock then t.freed + 1 else t.freed)
    case AFlushed(_) => t.(caller := Freeing)
    case AFreeBlocking(_) => t.(caller := Returned, freed := t.freed + 1)
  }

  predicate Frees(t: Task, a: Action) {
    a.AFreeInterrupted? || a.AFreeBlocking? || (a.AFinish? && t.asked.nonblock)
  }

  /** Steps that read or write the msm_commit itself. The decision after queueing goes
      by the copy of nonblock, and leaves a queued nonblocking commit alone. */
  predicate Touches(t: Task, a: Action)
    requires Ready(t, a)
  {
    !a.AInterrupt? && !a.ASwap? && !(a.ADecide? && t.caller.queued && t.caller.nonblock)
  }

  function Do(s: Sys, a: Action): Sys
    requires Enabled(s, a)
  {
    if a.ASubmit? then
      s.(heap := s.heap[a.id := a.commit], tasks := s.tasks[a.id := Task(a.commit, Waiting, NotQueued, 0, 0)])
    else
      var t := s.tasks[a.id];
      Sys(s.threads,
          if a.AClaim? then s.pendingCrtcs + t.asked.crtcs
          else if a.ARelease? then s.pendingCrtcs - t.asked.crtcs else s.pendingCrtcs,
          if a.AClaim? then s.pendingPlanes + t.asked.planes
          else if a.ARelease? then s.pendingPlanes - t.asked.planes else s.pendingPlanes,
          if Frees(t, a) then s.heap - {a.id} else s.heap,
          s.tasks[a.id := NextTask(s.threads, t, a)],
          if a.ASwap? then s.log + [Swap(a.id)] else if a.ARelease? then s.log + [Release(a.id)] else s.log,
          s.faulted || (Touches(t, a) && a.id !in s.heap))
  }

  /** Every step on a commit that is gone is a fault, but for the interrupt, the state
      swap and the decision about a nonblocking commit that was queued. */
  lemma FaultExact(s: Sys, a: Action)
    requires Enabled(s, a) && !a.ASubmit?
    ensures var caller := s.tasks[a.id].caller;
            Do(s, a).faulted <==>
            s.faulted || (a.id !in s.heap && !a.AInterrupt? && !a.ASwap? &&
                          !(a.ADecide? && caller == Dispatched(true, true)))
  {
  }

  function Init(threads: seq<DispThread>): Sys { Sys(threads, {}, {}, map[], map[], [], false) }

  /** Any schedule: an action that is not enabled is skipped. */
  function Run(s: Sys, acts: seq<Action>): Sys
    decreases |acts|
  {
    if acts == [] then s else Run(if Enabled(s, acts[0]) then Do(s, acts[0]) else s, acts[1..])
  }

  // ---------- Invariant ----------

  /** Between start and end: the commit owns its masks. */
  predicate Holds(t: Task) {
    || t.caller == Claimed || t.caller == Swapped || (t.caller.Dispatched? && !t.caller.queued)
    || t.work.Queued? || t.work.Completing?
  }

  predicate TaskOk(t: Task) {
    var nb := t.asked.nonblock;
    && t.completed == (if t.work.Releasing? || t.work.Finished? then 1 else 0)
    && t.freed == (if t.caller == Failed then 1
                   else if nb then (if t.work.Finished? then 1 else 0)
                   else if t.caller == Returned then 1 else 0)
    && match t.caller
       case Dispatched(copy, queued) => copy == nb && if queued then OnWorker(t.work) else t.work == NotQueued
       case Syncing => t.work == Completing(None) || t.work == Releasing(None)
       case Flushing => !nb && OnWorker(t.work)
       case Freeing => !nb && t.work == Finished
       case Returned => if nb then OnWorker(t.work) else t.work == Finished
       case _ => t.work == NotQueued
  }

  predicate OnWorker(w: Work) {
    w.Queued? || w.Finished? || ((w.Completing? || w.Releasing?) && w.runner.Some?)
  }

  predicate Shares(a: Commit, b: Commit) { !(a.crtcs !! b.crtcs && a.planes !! b.planes) }

  ghost predicate TasksOk(s: Sys) {
    && !s.faulted
    && (forall c :: c in s.heap <==> c in s.tasks && s.tasks[c].freed == 0)
    && (forall c :: c in s.tasks ==> TaskOk(s.tasks[c]))
  }

  ghost predicate CrtcsExact(s: Sys) {
    forall x :: x in s.pendingCrtcs <==> exists c :: c in s.tasks && Holds(s.tasks[c]) && x in s.tasks[c].asked.crtcs
  }

  ghost predicate PlanesExact(s: Sys) {
    forall x :: x in s.pendingPlanes <==> exists c :: c in s.tasks && Holds(s.tasks[c]) && x in s.tasks[c].asked.planes
  }

  ghost predicate HoldersApart(s: Sys) {
    forall c, d :: c in s.tasks && d in s.tasks && c != d && Holds(s.tasks[c]) && Holds(s.tasks[d]) ==>
      !Shares(s.tasks[c].asked, s.tasks[d].asked)
  }

  /** The pending masks are exactly the union of the holders' masks, and holders
      do not share. */
  ghost predicate Exclusive(s: Sys) { CrtcsExact(s) && PlanesExact(s) && HoldersApart(s) }

  ghost predicate ReleasedAfter(log: seq<Mark>, c: Id, i: nat, end: nat)
    requires end <= |log|
  {
    exists k :: i < k < end && log[k] == Release(c)
  }

  /** Every swap in the log is of a known commit, which still holds its masks
      unless a later release of it is logged. */
  ghost predicate LogTied(s: Sys) {
    forall i :: 0 <= i < |s.log| && s.log[i].Swap? ==>
      var c := s.log[i].id;
      c in s.tasks && s.tasks[c].caller != Waiting && s.tasks[c].caller != Claimed &&
      (ReleasedAfter(s.log, c, i, |s.log|) || Holds(s.tasks[c]))
  }

  /** Of two commits that share a crtc or a plane, the later swap comes after the
      earlier one's release: their windows do not overlap. */
  ghost predicate WindowsDisjoint(s: Sys) {
    forall i, j :: 0 <= i < j < |s.log| && s.log[i].Swap? && s.log[j].Swap? &&
                   s.log[i].id in s.tasks && s.log[j].id in s.tasks && s.log[i].id != s.log[j].id &&
                   Shares(s.tasks[s.log[i].id].asked, s.tasks[s.log[j].id].asked) ==>
      ReleasedAfter(s.log, s.log[i].id, i, j)
  }

  ghost predicate Inv(s: Sys) { TasksOk(s) && Exclusive(s) && LogTied(s) && WindowsDisjoint(s) }

  /** One step of one commit: the counters stay exact, a freeing step frees a
      commit that was not freed, and only claim and release change ownership. */
  lemma NextTaskOk(threads: seq<DispThread>, t: Task, a: Action)
    requires TaskOk(t) && Ready(t, a)
    ensures var t' := NextTask(threads, t, a);
            && TaskOk(t') && t'.asked == t.asked
            && (Touches(t, a) ==> t.freed == 0)
            && t'.freed == (if Frees(t, a) then t.freed + 1 else t.freed)
            && (a.AClaim? ==> !Holds(t) && Holds(t'))
            && (a.ARelease? ==> Holds(t) && !Holds(t'))
            && (!a.AClaim? && !a.ARelease? ==> Holds(t') == Holds(t))
            && ((t'.caller == Waiting || t'.caller == Claimed) ==> t.caller == Waiting || t.caller == Claimed)
  {
  }

  lemma DoTasksOk(s: Sys, a: Action)
    requires TasksOk(s) && Enabled(s, a)
    ensures TasksOk(Do(s, a))
  {
    if !a.ASubmit? { NextTaskOk(s.threads, s.tasks[a.id], a); }
  }

  lemma DoExclusive(s: Sys, a: Action)
    requires TasksOk(s) && Exclusive(s) && Enabled(s, a)
    ensures Exclusive(Do(s, a))
  {
    if a.AClaim? {
      ClaimExclusive(s, a);
    } else if a.ARelease? {
      ReleaseExclusive(s, a);
    } else {
      QuietDo(s, a);
      QuietExclusive(s, Do(s, a));
    }
  }

  /** Ownership is the same before and after. */
  ghost predicate Quiet(s: Sys, s': Sys) {
    && s'.pendingCrtcs == s.pendingCrtcs && s'.pendingPlanes == s.pendingPlanes
    && (forall c :: c in s.tasks ==>
          c in s'.tasks && Holds(s'.tasks[c]) == Holds(s.tasks[c]) && s'.tasks[c].asked == s.tasks[c].asked)
    && (forall c :: c in s'.tasks && c !in s.tasks ==> !Holds(s'.tasks[c]))
  }

  lemma QuietDo(s: Sys, a: Action)
    requires TasksOk(s) && Enabled(s, a) && !a.AClaim? && !a.ARelease?
    ensures Quiet(s, Do(s, a))
  {
    if !a.ASubmit? { NextTaskOk(s.threads, s.tasks[a.id], a); }
  }

  lemma QuietExclusive(s: Sys, s': Sys)
    requires Exclusive(s) && Quiet(s, s')
    ensures Exclusive(s')
  {
  }

  lemma ClaimExclusive(s: Sys, a: Action)
    requires TasksOk(s) && Exclusive(s) && Enabled(s, a) && a.AClaim?
    ensures Exclusive(Do(s, a))
  {
    var s', t := Do(s, a), s.tasks[a.id];
    NextTaskOk(s.threads, t, a);
    assert forall c :: c in s.tasks && c != a.id ==> s'.tasks[c] == s.tasks[c];
    assert s'.tasks[a.id].asked == t.asked && Holds(s'.tasks[a.id]);
    forall d | d in s.tasks && d != a.id && Holds(s.tasks[d])
      ensures !Shares(t.asked, s.tasks[d].asked) && !Shares(s.tasks[d].asked, t.asked)
    {
      assert s.tasks[d].asked.crtcs <= s.pendingCrtcs && s.tasks[d].asked.planes <= s.pendingPlanes;
    }
  }

  /** s' is s with the holder c no longer one, and its masks cleared. */
  ghost predicate Drops(s: Sys, s': Sys, c: Id) {
    && c in s.tasks && Holds(s.tasks[c]) && s'.tasks.Keys == s.tasks.Keys && !Holds(s'.tasks[c])
    && (forall d :: d in s.tasks && d != c ==> s'.tasks[d] == s.tasks[d])
    && s'.pendingCrtcs == s.pendingCrtcs - s.tasks[c].asked.crtcs
    && s'.pendingPlanes == s.pendingPlanes - s.tasks[c].asked.planes
  }

  lemma ReleaseExclusive(s: Sys, a: Action)
    requires TasksOk(s) && Exclusive(s) && Enabled(s, a) && a.ARelease?
    ensures Exclusive(Do(s, a))
  {
    NextTaskOk(s.threads, s.tasks[a.id], a);
    assert Do(s, a).tasks.Keys == s.tasks.Keys;
    DropCrtcs(s, Do(s, a), a.id);
    DropPlanes(s, Do(s, a), a.id);
  }

  lemma DropCrtcs(s: Sys, s': Sys, c: Id)
    requires Exclusive(s) && Drops(s, s', c)
    ensures CrtcsExact(s') && HoldersApart(s')
  {
    forall x | x in s'.pendingCrtcs
      ensures exists d :: d in s'.tasks && Holds(s'.tasks[d]) && x in s'.tasks[d].asked.crtcs
    {
      var d :| d in s.tasks && Holds(s.tasks[d]) && x in s.tasks[d].asked.crtcs;
      assert s'.tasks[d] == s.tasks[d];
    }
    forall d, x | d in s'.tasks && Holds(s'.tasks[d]) && x in s'.tasks[d].asked.crtcs ensures x in s'.pendingCrtcs {
      assert !Shares(s.tasks[c].asked, s.tasks[d].asked);
    }
  }

  lemma DropPlanes(s: Sys, s': Sys, c: Id)
    requires Exclusive(s) && Drops(s, s', c)
    ensures PlanesExact(s')
  {
    forall x | x in s'.pendingPlanes
      ensures exists d :: d in s'.tasks && Holds(s'.tasks[d]) && x in s'.tasks[d].asked.planes
    {
      var d :| d in s.tasks && Holds(s.tasks[d]) && x in s.tasks[d].asked.planes;
      assert s'.tasks[d] == s.tasks[d];
    }
    forall d, x | d in s'.tasks && Holds(s'.tasks[d]) && x in s'.tasks[d].asked.planes ensures x in s'.pendingPlanes {
      assert !Shares(s.tasks[c].asked, s.tasks[d].asked);
    }
  }

  lemma DoLogTied(s: Sys, a: Action)
    requires TasksOk(s) && LogTied(s) && Enabled(s, a)
    ensures LogTied(Do(s, a))
  {
    var s' := Do(s, a);
    if !a.ASubmit? { NextTaskOk(s.threads, s.tasks[a.id], a); }
    forall i | 0 <= i < |s'.log| && s'.log[i].Swap?
      ensures var c := s'.log[i].id;
              c in s'.tasks && s'.tasks[c].caller != Waiting && s'.tasks[c].caller != Claimed &&
              (ReleasedAfter(s'.log, c, i, |s'.log|) || Holds(s'.tasks[c]))
    {
      var c := s'.log[i].id;
      if i < |s.log| {
        assert s.log[i] == s'.log[i];
        if ReleasedAfter(s.log, c, i, |s.log|) {
          var k :| i < k < |s.log| && s.log[k] == Release(c);
          assert s'.log[k] == Release(c);
        } else if a.ARelease? && a.id == c {
          assert s'.log[|s.log|] == Release(c);
        }
      }
    }
  }

  lemma ReleasedLater(log: seq<Mark>, log': seq<Mark>, c: Id, i: nat, end: nat)
    requires log <= log' && end <= |log| && ReleasedAfter(log, c, i, end)
    ensures forall j :: end <= j <= |log'| ==> ReleasedAfter(log', c, i, j)
  {
    var k :| i < k < end && log[k] == Release(c);
    assert log'[k] == Release(c);
  }

  /** A commit that swaps now shares with no earlier one that is still to release. */
  lemma SwapAfterRelease(s: Sys, d: Id, i: nat)
    requires Inv(s) && d in s.tasks && s.tasks[d].caller == Claimed
    requires i < |s.log| && s.log[i].Swap? && s.log[i].id != d
    requires s.log[i].id in s.tasks && Shares(s.tasks[s.log[i].id].asked, s.tasks[d].asked)
    ensures ReleasedAfter(s.log, s.log[i].id, i, |s.log|)
  {
    assert Holds(s.tasks[d]);
  }

  /** The pair of swaps (i, j) after a step. */
  lemma WindowAt(s: Sys, a: Action, i: nat, j: nat)
    requires Inv(s) && Enabled(s, a)
    requires var s' := Do(s, a);
             && i < j < |s'.log| && s'.log[i].Swap? && s'.log[j].Swap?
             && s'.log[i].id in s'.tasks && s'.log[j].id in s'.tasks && s'.log[i].id != s'.log[j].id
             && Shares(s'.tasks[s'.log[i].id].asked, s'.tasks[s'.log[j].id].asked)
    ensures ReleasedAfter(Do(s, a).log, Do(s, a).log[i].id, i, j)
  {
    var s' := Do(s, a);
    var c, d := s'.log[i].id, s'.log[j].id;
    assert s'.log[i] == s.log[i] && c in s.tasks;
    AskedKept(s, a, c);
    if j < |s.log| {
      assert s'.log[j] == s.log[j] && d in s.tasks;
      AskedKept(s, a, d);
      ReleasedLater(s.log, s'.log, c, i, j);
    } else {
      assert a == ASwap(d);
      AskedKept(s, a, d);
      SwapAfterRelease(s, d, i);
      ReleasedLater(s.log, s'.log, c, i, |s.log|);
    }
  }

  lemma AskedKept(s: Sys, a: Action, c: Id)
    requires TasksOk(s) && Enabled(s, a) && c in s.tasks
    ensures c in Do(s, a).tasks && Do(s, a).tasks[c].asked == s.tasks[c].asked
  {
    if !a.ASubmit? { NextTaskOk(s.threads, s.tasks[a.id], a); }
  }

  lemma DoWindows(s: Sys, a: Action)
    requires Inv(s) && Enabled(s, a)
    ensures WindowsDisjoint(Do(s, a))
  {
    var s' := Do(s, a);
    forall i, j | 0 <= i < j < |s'.log| && s'.log[i].Swap? && s'.log[j].Swap? &&
                  s'.log[i].id in s'.tasks && s'.log[j].id in s'.tasks && s'.log[i].id != s'.log[j].id &&
                  Shares(s'.tasks[s'.log[i].id].asked, s'.tasks[s'.log[j].id].asked)
      ensures ReleasedAfter(s'.log, s'.log[i].id, i, j)
    {
      WindowAt(s, a, i, j);
    }
  }

  // ---------- Results ----------

  /** Every reachable state, under any schedule of callers and workers. */
  lemma {:induction false} RunInv(s: Sys, acts: seq<Action>)
    requires Inv(s)
    ensures Inv(Run(s, acts))
    decreases |acts|
  {
    if acts != [] {
      if Enabled(s, acts[0]) {
        StepInv(s, acts[0]);
        RunInv(Do(s, acts[0]), acts[1..]);
      } else {
        RunInv(s, acts[1..]);
      }
    }
  }

  /** At every step: the pending masks are the union of the masks of the commits
      between start and destroy, and those are pairwise disjoint. */
  lemma CommitExclusion(threads: seq<DispThread>, acts: seq<Action>)
    ensures Exclusive(Run(Init(threads), acts))
  {
    RunInv(Init(threads), acts);
  }

  /** Swap-to-destroy windows of commits that share a crtc or a plane never overlap. */
  lemma CommitWindows(threads: seq<DispThread>, acts: seq<Action>)
    ensures WindowsDisjoint(Run(Init(threads), acts))
  {
    RunInv(Init(threads), acts);
  }

  // ---------- Where a commit runs ----------

  ghost predicate GoesTo(threads: seq<DispThread>, ids: seq<nat>, j: nat) {
    exists i :: Routed(ids, threads, j, i)
  }

  ghost predicate GoesNowhere(threads: seq<DispThread>, ids: seq<nat>) { forall j :: !GoesTo(threads, ids, j) }

  /** A commit is on the worker of its first crtc that has an entry with a thread, and
      runs in its caller only if there is none. */
  ghost predicate Placed(threads: seq<DispThread>, t: Task) {
    var ids := t.asked.crtcIds;
    && (t.work.Queued? ==> GoesTo(threads, ids, t.work.worker))
    && (t.work.Completing? || t.work.Releasing? ==>
          if t.work.runner.Some? then GoesTo(threads, ids, t.work.runner.value) else GoesNowhere(threads, ids))
    && (t.caller.Dispatched? && !t.caller.queued ==> GoesNowhere(threads, ids))
  }

  lemma NextPlaced(threads: seq<DispThread>, t: Task, a: Action)
    requires TaskOk(t) && Ready(t, a) && Placed(threads, t)
    ensures Placed(threads, NextTask(threads, t, a))
  {
    if a.ADispatch? {
      var ids := t.asked.crtcIds;
      forall j: nat ensures Target(ids, threads) == Some(j) <==> GoesTo(threads, ids, j) {
        TargetMeaning(ids, threads, j);
      }
    }
  }

  ghost predicate AllPlaced(s: Sys) { forall c :: c in s.tasks ==> Placed(s.threads, s.tasks[c]) }

  lemma {:induction false} RunPlaced(s: Sys, acts: seq<Action>)
    requires Inv(s) && AllPlaced(s)
    ensures AllPlaced(Run(s, acts)) && Run(s, acts).threads == s.threads
    decreases |acts|
  {
    if acts != [] {
      var s' := if Enabled(s, acts[0]) then Do(s, acts[0]) else s;
      if Enabled(s, acts[0]) {
        StepInv(s, acts[0]);
        if !acts[0].ASubmit? { NextPlaced(s.threads, s.tasks[acts[0].id], acts[0]); }
      }
      RunPlaced(s', acts[1..]);
    }
  }

  /** In every run each commit is where its crtcs send it. */
  lemma CommitPlaced(threads: seq<DispThread>, acts: seq<Action>, c: Id)
    requires c in Run(Init(threads), acts).tasks
    ensures Placed(threads, Run(Init(threads), acts).tasks[c])
  {
    RunPlaced(Init(threads), acts);
  }

  // ---------- One commit at a time per worker ----------

  predicate RunsOn(t: Task, j: nat) { t.work == Completing(Some(j)) || t.work == Releasing(Some(j)) }

  ghost predicate WorkersSerial(s: Sys) {
    forall c, d, j :: c in s.tasks && d in s.tasks && RunsOn(s.tasks[c], j) && RunsOn(s.tasks[d], j) ==> c == d
  }

  lemma DoSerial(s: Sys, a: Action)
    requires TasksOk(s) && WorkersSerial(s) && Enabled(s, a)
    ensures WorkersSerial(Do(s, a))
  {
    var s' := Do(s, a);
    forall c, d, j | c in s'.tasks && d in s'.tasks && RunsOn(s'.tasks[c], j) && RunsOn(s'.tasks[d], j)
      ensures c == d
    {
      if a.ABegin? {
        assert c != a.id ==> RunsOn(s.tasks[c], j);
        assert d != a.id ==> RunsOn(s.tasks[d], j);
      } else {
        assert c in s.tasks && RunsOn(s.tasks[c], j);
        assert d in s.tasks && RunsOn(s.tasks[d], j);
      }
    }
  }

  lemma {:induction false} RunSerial(s: Sys, acts: seq<Action>)
    requires Inv(s) && WorkersSerial(s)
    ensures WorkersSerial(Run(s, acts))
    decreases |acts|
  {
    if acts != [] {
      if Enabled(s, acts[0]) {
        StepInv(s, acts[0]);
        DoSerial(s, acts[0]);
        RunSerial(Do(s, acts[0]), acts[1..]);
      } else {
        RunSerial(s, acts[1..]);
      }
    }
  }

  // ---------- The log and the submissions ----------

  function Times(log: seq<Mark>, m: Mark): nat {
    if log == [] then 0 else Times(log[..|log| - 1], m) + if log[|log| - 1] == m then 1 else 0
  }

  lemma TimesMore(log: seq<Mark>, m: Mark, x: Mark)
    ensures Times(log + [x], m) == Times(log, m) + if x == m then 1 else 0
  {
    assert (log + [x])[..|log|] == log;
  }

  predicate HasSwapped(t: Task) {
    t.caller != Waiting && t.caller != Interrupted && t.caller != Failed && t.caller != Claimed
  }

  predicate HasReleased(t: Task) { t.work.Releasing? || t.work.Finished? }

  /** A swap and a release are logged once for each commit that has got there. */
  ghost predicate LogExact(s: Sys) { forall c: Id :: LogExactAt(s, c) }

  ghost predicate LogExactAt(s: Sys, c: Id) {
    && Times(s.log, Swap(c)) == (if c in s.tasks && HasSwapped(s.tasks[c]) then 1 else 0)
    && Times(s.log, Release(c)) == (if c in s.tasks && HasReleased(s.tasks[c]) then 1 else 0)
  }

  lemma NextMarks(threads: seq<DispThread>, t: Task, a: Action)
    requires TaskOk(t) && Ready(t, a)
    ensures var t' := NextTask(threads, t, a);
            && HasSwapped(t') == (HasSwapped(t) || a.ASwap?) && (a.ASwap? ==> !HasSwapped(t))
            && HasReleased(t') == (HasReleased(t) || a.ARelease?) && (a.ARelease? ==> !HasReleased(t))
  {
  }

  lemma DoLogExact(s: Sys, a: Action)
    requires TasksOk(s) && LogExact(s) && Enabled(s, a)
    ensures LogExact(Do(s, a))
  {
    forall c: Id ensures LogExactAt(Do(s, a), c) {
      assert LogExactAt(s, c);
      if !a.ASubmit? { StepLogAt(s, a, c); }
    }
  }

  lemma StepLogAt(s: Sys, a: Action, c: Id)
    requires TasksOk(s) && LogExactAt(s, c) && Enabled(s, a) && !a.ASubmit?
    ensures LogExactAt(Do(s, a), c)
  {
    var t := s.tasks[a.id];
    NextMarks(s.threads, t, a);
    TimesMore(s.log, Swap(c), Swap(a.id));
    TimesMore(s.log, Release(c), Swap(a.id));
    TimesMore(s.log, Swap(c), Release(a.id));
    TimesMore(s.log, Release(c), Release(a.id));
    assert Do(s, a).log == if a.ASwap? then s.log + [Swap(a.id)]
                           else if a.ARelease? then s.log + [Release(a.id)] else s.log;
  }

  ghost predicate AskedAs(acts: seq<Action>, c: Id, commit: Commit) {
    exists k :: 0 <= k < |acts| && acts[k] == ASubmit(c, commit)
  }

  /** In every run the log has one swap for each commit that has swapped, one release
      for each that has released, and nothing else; and every commit is as submitted. */
  lemma {:induction false} RunLogged(s: Sys, acts: seq<Action>)
    requires Inv(s) && LogExact(s)
    ensures LogExact(Run(s, acts))
    ensures forall c :: c in Run(s, acts).tasks ==>
              (c in s.tasks && s.tasks[c].asked == Run(s, acts).tasks[c].asked) ||
              AskedAs(acts, c, Run(s, acts).tasks[c].asked)
    decreases |acts|
  {
    if acts != [] {
      var s' := if Enabled(s, acts[0]) then Do(s, acts[0]) else s;
      if Enabled(s, acts[0]) {
        StepInv(s, acts[0]);
        DoLogExact(s, acts[0]);
      }
      RunLogged(s', acts[1..]);
      forall c | c in Run(s, acts).tasks
        ensures (c in s.tasks && s.tasks[c].asked == Run(s, acts).tasks[c].asked) ||
                AskedAs(acts, c, Run(s, acts).tasks[c].asked)
      {
        AskedStep(s, acts, c, Run(s, acts).tasks[c].asked);
      }
    }
  }

  lemma AskedStep(s: Sys, acts: seq<Action>, c: Id, commit: Commit)
    requires TasksOk(s) && acts != []
    requires var s' := if Enabled(s, acts[0]) then Do(s, acts[0]) else s;
             (c in s'.tasks && s'.tasks[c].asked == commit) || AskedAs(acts[1..], c, commit)
    ensures (c in s.tasks && s.tasks[c].asked == commit) || AskedAs(acts, c, commit)
  {
    if AskedAs(acts[1..], c, commit) {
      var k :| 0 <= k < |acts| - 1 && acts[1..][k] == ASubmit(c, commit);
      assert acts[k + 1] == ASubmit(c, commit);
    } else if Enabled(s, acts[0]) {
      if c in s.tasks { AskedKept(s, acts[0], c); } else { assert acts[0] == ASubmit(c, commit); }
    }
  }

  /** The log of a run from the start. */
  lemma CommitLogged(threads: seq<DispThread>, acts: seq<Action>)
    ensures LogExact(Run(Init(threads), acts)) && WorkersSerial(Run(Init(threads), acts))
    ensures var s := Run(Init(threads), acts); forall c :: c in s.tasks ==> AskedAs(acts, c, s.tasks[c].asked)
  {
    RunLogged(Init(threads), acts);
    RunSerial(Init(threads), acts);
  }

  predicate Settled(t: Task) {
    (t.caller == Returned || t.caller == Failed) && (t.work == NotQueued || t.work == Finished)
  }

  /** No run touches a freed commit or frees one twice; complete_commit runs at
      most once per commit, and exactly once, with exactly one free, by the time an
      accepted commit is settled; an interrupted one is freed once and never run. */
  lemma ExactlyOnce(threads: seq<DispThread>, acts: seq<Action>, c: Id)
    requires c in Run(Init(threads), acts).tasks
    ensures !Run(Init(threads), acts).faulted
    ensures var t := Run(Init(threads), acts).tasks[c];
            && t.completed <= 1 && t.freed <= 1
            && (Settled(t) ==> t.freed == 1 && t.completed == (if t.caller == Returned then 1 else 0))
  {
    RunInv(Init(threads), acts);
    assert TaskOk(Run(Init(threads), acts).tasks[c]);
  }

  /** Why nonblock is read before queueing: when the worker has finished with a
      nonblocking commit before the decision, the commit is gone, and the decision
      goes by the copy without a fault. */
  lemma CopyDecides(s: Sys, c: Id)
    requires Inv(s) && c in s.tasks && s.tasks[c].caller == Dispatched(true, true) && s.tasks[c].work == Finished
    ensures c !in s.heap && Enabled(s, ADecide(c))
    ensures !Do(s, ADecide(c)).faulted && Do(s, ADecide(c)).tasks[c].caller == Returned
  {
    assert TaskOk(s.tasks[c]);
  }

  lemma {:induction false} RunSnoc(s: Sys, acts: seq<Action>, a: Action)
    requires Enabled(Run(s, acts), a)
    ensures Run(s, acts + [a]) == Do(Run(s, acts), a)
    decreases |acts|
  {
    if acts == [] {
      assert [a][1..] == [];
    } else {
      assert (acts + [a])[1..] == acts[1..] + [a];
      RunSnoc(if Enabled(s, acts[0]) then Do(s, acts[0]) else s, acts[1..], a);
    }
  }

  /** That does happen: the worker frees the commit before its submitter decides. */
  lemma FreedBeforeDecision() returns (acts: seq<Action>)
    ensures var s := Run(Init([DispThread(1, true)]), acts);
      0 in s.tasks && s.tasks[0].caller == Dispatched(true, true) && s.tasks[0].work == Finished && 0 !in s.heap
  {
    var s;
    acts, s := QueuedCommit();
    acts, s := Extend(s, acts, ABegin(0));
    acts, s := Extend(s, acts, ARelease(0));
    acts, s := Extend(s, acts, AFinish(0));
  }

  lemma QueuedCommit() returns (acts: seq<Action>, s: Sys)
    ensures s == Run(Init([DispThread(1, true)]), acts) && s.tasks.Keys == {0}
    ensures s.tasks[0] == Task(Commit({0}, {}, true, [1]), Dispatched(true, true), Queued(0), 0, 0)
  {
    s := Init([DispThread(1, true)]);
    acts := [];
    acts, s := Extend(s, acts, ASubmit(0, Commit({0}, {}, true, [1])));
    acts, s := Extend(s, acts, AClaim(0));
    acts, s := Extend(s, acts, ASwap(0));
    assert Target([1], [DispThread(1, true)]) == Some(0);
    acts, s := Extend(s, acts, ADispatch(0));
  }

  lemma Extend(s: Sys, acts: seq<Action>, a: Action) returns (acts': seq<Action>, s': Sys)
    requires s == Run(Init([DispThread(1, true)]), acts) && Enabled(s, a)
    ensures s' == Do(s, a) == Run(Init([DispThread(1, true)]), acts')
  {
    RunSnoc(Init([DispThread(1, true)]), acts, a);
    acts', s' := acts + [a], Do(s, a);
  }

  /** No deadlock: while some commit is unsettled, some step can be taken. */
  lemma Progress(s: Sys, c: Id) returns (a: Action)
    requires Inv(s) && c in s.tasks && !Settled(s.tasks[c])
    ensures Enabled(s, a) && !a.ASubmit?
  {
    assert TaskOk(s.tasks[c]);
    if s.tasks[c].caller == Waiting {
      if h :| h in s.tasks && Holds(s.tasks[h]) {
        a := OwnStep(s, h);
      } else {
        assert s.pendingCrtcs == {} && s.pendingPlanes == {};
        a := AClaim(c);
      }
    } else {
      a := OwnStep(s, c);
    }
  }

  /** Steps left for a commit, whatever the schedule does with it. */
  function Rank(t: Task): nat {
    (match t.caller
     case Waiting => 11 case Claimed => 10 case Swapped => 9 case Dispatched(_, _) => 5
     case Flushing => 2 case Syncing => 2 case Freeing => 1 case Interrupted => 1 case Returned => 0 case Failed => 0) +
    (match t.work
     case NotQueued => 0 case Queued(_) => 3 case Completing(_) => 2 case Releasing(_) => 1 case Finished => 0)
  }

  /** Every step uses up rank of its own commit and leaves the others alone. */
  lemma StepShrinks(s: Sys, a: Action)
    requires Inv(s) && Enabled(s, a) && !a.ASubmit?
    ensures Rank(Do(s, a).tasks[a.id]) < Rank(s.tasks[a.id])
    ensures Do(s, a).tasks - {a.id} == s.tasks - {a.id}
  {
    RankDrops(s.threads, s.tasks[a.id], a);
  }

  lemma RankDrops(threads: seq<DispThread>, t: Task, a: Action)
    requires TaskOk(t) && Ready(t, a)
    ensures Rank(NextTask(threads, t, a)) < Rank(t)
  {
  }

  /** Every action is taken, and none submits a commit. */
  ghost predicate Schedule(s: Sys, acts: seq<Action>)
    decreases |acts|
  {
    acts == [] || (Enabled(s, acts[0]) && !acts[0].ASubmit? && Schedule(Do(s, acts[0]), acts[1..]))
  }

  function StepsOf(acts: seq<Action>, c: Id): nat
    decreases |acts|
  {
    if acts == [] then 0 else StepsOf(acts[1..], c) + if acts[0].id == c then 1 else 0
  }

  /** Once no more commits are submitted, each takes at most its rank in steps. */
  lemma {:induction false} BoundedSteps(s: Sys, acts: seq<Action>, c: Id)
    requires Inv(s) && Schedule(s, acts) && c in s.tasks
    ensures c in Run(s, acts).tasks && StepsOf(acts, c) + Rank(Run(s, acts).tasks[c]) <= Rank(s.tasks[c])
    decreases |acts|
  {
    if acts != [] {
      var s' := Do(s, acts[0]);
      StepShrinks(s, acts[0]);
      assert c != acts[0].id ==> c in s'.tasks - {acts[0].id} && s'.tasks[c] == (s'.tasks - {acts[0].id})[c];
      StepInv(s, acts[0]);
      BoundedSteps(s', acts[1..], c);
    }
  }

  lemma StepInv(s: Sys, a: Action)
    requires Inv(s) && Enabled(s, a)
    ensures Inv(Do(s, a))
  {
    DoTasksOk(s, a);
    DoExclusive(s, a);
    DoLogTied(s, a);
    DoWindows(s, a);
  }

  /** Liveness: a run that has nothing left to do has settled every commit, and by
      BoundedSteps every run gets there. */
  lemma StoppedIsSettled(threads: seq<DispThread>, acts: seq<Action>)
    requires var s := Run(Init(threads), acts); forall a: Action :: !a.ASubmit? ==> !Enabled(s, a)
    ensures var s := Run(Init(threads), acts);
            && (forall c :: c in s.tasks ==> Settled(s.tasks[c]))
            && s.heap == map[] && s.pendingCrtcs == {} && s.pendingPlanes == {}
  {
    var s := Run(Init(threads), acts);
    RunInv(Init(threads), acts);
    forall c | c in s.tasks ensures Settled(s.tasks[c]) && s.tasks[c].freed == 1 && !Holds(s.tasks[c]) {
      if !Settled(s.tasks[c]) {
        var a := Progress(s, c);
        assert false;
      }
      assert TaskOk(s.tasks[c]);
    }
    assert forall c :: c !in s.heap;
  }

  lemma OwnStep(s: Sys, c: Id) returns (a: Action)
    requires Inv(s) && c in s.tasks && !Settled(s.tasks[c]) && s.tasks[c].caller != Waiting
    ensures Enabled(s, a) && !a.ASubmit?
  {
    var t := s.tasks[c];
    assert TaskOk(t);
    if t.work.Queued? {
      if WorkerBusy(s, t.work.worker) {
        var d :| d in s.tasks && (s.tasks[d].work == Completing(Some(t.work.worker)) ||
                                  s.tasks[d].work == Releasing(Some(t.work.worker)));
        a := if s.tasks[d].work.Completing? then ARelease(d) else AFinish(d);
      } else {
        a := ABegin(c);
      }
    } else if t.work.Completing? {
      a := ARelease(c);
    } else if t.work.Releasing? {
      a := AFinish(c);
    } else {
      a := match t.caller
        case Interrupted => AFreeInterrupted(c)
        case Claimed => ASwap(c)
        case Swapped => ADispatch(c)
        case Dispatched(_, _) => ADecide(c)
        case Flushing => AFlushed(c)
        case _ => AFreeBlocking(c);
    }
  }
}
