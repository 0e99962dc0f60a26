/**
 The debug event log (sde_dbg_evtlog.c): a ring of 8192 slots addressed by
 wrapping 32-bit counters, and a dump that prints one entry per call while other
 threads keep logging.
 */
module EventLog {
  import opened Common

  const ENTRY := 8192        // SDE_EVTLOG_ENTRY
  const PRINT := 256         // SDE_EVTLOG_PRINT_ENTRY
  const MAX_DATA := 15       // SDE_EVTLOG_MAX_DATA
  const LIMITER := 0xC0DEBEEF
  const U32 := 0x1_0000_0000

  datatype Event = Event(time: int, name: string, line: int, pid: int, cpu: nat, data: seq<int>)

  /** The values logged: those before the limiter, at most fifteen. */
  function Data(args: seq<int>, room: nat): (d: seq<int>)
    ensures |d| <= room && d <= args && LIMITER !in d
    ensures |d| == room || |d| == |args| || args[|d|] == LIMITER
  {
    if room == 0 || args == [] || args[0] == LIMITER then [] else [args[0]] + Data(args[1..], room - 1)
  }

  lemma DataUnique(args: seq<int>, d: seq<int>)
    requires |d| <= MAX_DATA && d <= args && LIMITER !in d
    requires |d| == MAX_DATA || |d| == |args| || args[|d|] == LIMITER
    ensures d == Data(args, MAX_DATA)
  {
    var e := Data(args, MAX_DATA);
    assert forall i :: 0 <= i < |d| ==> args[i] == d[i] && d[i] != LIMITER;
    assert forall i :: 0 <= i < |e| ==> args[i] == e[i] && e[i] != LIMITER;
    assert |d| == |e|;
  }

  /** The varargs loop. The logging macros append the limiter, so reaching the end of
      args reads one. */
  method CollectData(args: seq<int>) returns (data: seq<int>)
    ensures data == Data(args, MAX_DATA)
  {
    data := [];
    while |data| < MAX_DATA && |data| < |args|
      invariant |data| <= MAX_DATA && data <= args && LIMITER !in data
      decreases |args| - |data|
    {
      if args[|data|] == LIMITER { break; }
      data := data + [args[|data|]];
    }
    DataUnique(args, data);
  }

  /** What is kept of a call: its data field holds the arguments as passed. */
  function Record(e: Event): Event { e.(data := Data(e.data, MAX_DATA)) }

  function RecordAll(es: seq<Event>): seq<Event> { seq(|es|, i requires 0 <= i < |es| => Record(es[i])) }

  lemma RecordOneMore(es: seq<Event>, i: nat)
    requires i < |es|
    ensures RecordAll(es[..i + 1]) == RecordAll(es[..i]) + [Record(es[i])]
  {
    assert es[..i + 1] == es[..i] + [es[i]];
  }

  /** Of n events in all, the newest one that landed in the slot of event i. */
  function NewestAt(n: nat, i: nat): (j: nat)
    requires i < n
    ensures i <= j < n && j % ENTRY == i % ENTRY && n - j <= ENTRY
  {
    n - 1 - (n - 1 - i) % ENTRY
  }

  /** A slot still holds event i exactly while at most 8192 events follow its start. */
  lemma NewestAtIsItselfIff(n: nat, i: nat)
    requires i < n
    ensures NewestAt(n, i) == i <==> n - i <= ENTRY
  {
  }

  lemma NewestAtUnique(n: nat, i: nat, j: nat)
    requires i < n && j < n && j % ENTRY == i % ENTRY && n - j <= ENTRY
    ensures j == NewestAt(n, i)
  {
  }

  /** The marker arithmetic of _sde_evtlog_dump_calc_range on 32-bit counters:
      whether there is something to print, then first, next and last_dump. */
  function CalcRange(next: nat, lastDump: nat, max: nat): (bool, nat, nat, nat) {
    if lastDump == next then (false, next, next, lastDump)
    else
      var first := if lastDump < next then next % ENTRY else next;
      var last := if lastDump < first then (lastDump + ENTRY) % U32 else lastDump;
      var from := if (last - first) % U32 > max then (last - max) % U32 else first;
      (true, from, (from + 1) % U32, last)
  }

  /** Where a dump up to `to` starts: the newest entries not printed yet. */
  function NewestFrom(next: nat, to: nat, full: bool): int {
    var max := if full then ENTRY else PRINT;
    if to - next > max then to - max else next
  }

  /** Without counter wrap the range is the newest entries not printed yet. */
  lemma CalcRangeUnwrapped(next: nat, lastDump: nat, max: nat)
    requires next <= lastDump < U32 && max > 0
    ensures var from := if lastDump - next > max then lastDump - max else next;
            CalcRange(next, lastDump, max) ==
            if next == lastDump then (false, next, next, lastDump) else (true, from, from + 1, lastDump)
  {
  }

  /** With the end marker behind the start, as after a wrap: the end still names the slot
      it named, the dump starts at the slot of next unless more than max are due, and
      covers at most max slots. */
  lemma CalcRangeBehind(next: nat, lastDump: nat, max: nat)
    requires lastDump < next < U32 && lastDump < U32 - ENTRY && 0 < max <= ENTRY
    ensures var (more, from, next', to) := CalcRange(next, lastDump, max);
            && more && to % ENTRY == lastDump % ENTRY && from <= to <= from + max && next' == from + 1
            && (from % ENTRY == next % ENTRY || to == from + max)
            && to == (if lastDump < next % ENTRY then lastDump + ENTRY else lastDump)
  {
    var first := next % ENTRY;
    var to := if lastDump < first then lastDump + ENTRY else lastDump;
    NextTurn(lastDump);
    NoWrap(to);
    NoWrap(to - first);
    if to - first > max { NoWrap(to - max); }
    NoWrap((if to - first > max then to - max else first) + 1);
  }

  lemma NextTurn(n: nat)
    ensures (n + ENTRY) % ENTRY == n % ENTRY && n % ENTRY % ENTRY == n % ENTRY
  {
  }

  lemma NoWrap(n: nat)
    requires n < U32
    ensures n % U32 == n
  {
  }

  /** Events still to come from the other threads, from batch k on. */
  function Coming(batches: seq<seq<Event>>, k: nat): nat
    decreases |batches| - k
  {
    if k >= |batches| then 0 else |batches[k]| + Coming(batches, k + 1)
  }

  /** The newest ENTRY events each sit in their slot. */
  ghost predicate Ring(slots: seq<Event>, h: seq<Event>)
    requires |slots| == ENTRY
  {
    forall i :: 0 <= i < |h| && |h| - i <= ENTRY ==> slots[i % ENTRY] == h[i]
  }

  lemma RingPush(slots: seq<Event>, h: seq<Event>, e: Event)
    requires |slots| == ENTRY && Ring(slots, h)
    ensures Ring(slots[|h| % ENTRY := e], h + [e])
  {
    forall i | 0 <= i < |h| && |h| + 1 - i <= ENTRY ensures i % ENTRY != |h| % ENTRY {
      SlotsDiffer(i, |h|);
    }
  }

  /** Reading the slot of event i gives the newest event that landed there. */
  lemma SlotHolds(slots: seq<Event>, h: seq<Event>, i: nat)
    requires |slots| == ENTRY && Ring(slots, h) && i < |h|
    ensures slots[i % ENTRY] == h[NewestAt(|h|, i)]
  {
    var j := NewestAt(|h|, i);
    assert slots[j % ENTRY] == h[j];
  }

  lemma SlotsDiffer(i: nat, n: nat)
    requires i < n < i + ENTRY
    ensures i % ENTRY != n % ENTRY
  {
  }

  lemma NextSlot(n: nat)
    ensures (n % ENTRY + 1) % ENTRY == (n + 1) % ENTRY
  {
    var q, r := n / ENTRY, n % ENTRY;
    assert n == q * ENTRY + r;
    if r == ENTRY - 1 { assert n + 1 == (q + 1) * ENTRY; } else { assert (n + 1) / ENTRY == q; }
  }

  lemma NextCounter(n: nat)
    ensures (n % U32 + 1) % U32 == (n + 1) % U32
  {
    var q, r := n / U32, n % U32;
    assert n == q * U32 + r;
    if r == U32 - 1 { assert n + 1 == (q + 1) * U32; } else { assert (n + 1) / U32 == q; }
  }

  class EvtLog {
    const logs: array<Event>
    var curr: nat
    var last: nat
    var first: nat
    var next: nat
    var lastDump: nat
    ghost var history: seq<Event>  // every event accepted since init

    /** The ring is the history's tail and the counters its length. */
    ghost predicate Valid() reads this, logs {
      && logs.Length == ENTRY
      && curr == |history| % ENTRY
      && last == |history| % U32
      && Ring(logs[..], history)
    }

    /** The counters have not wrapped and the markers are behind the log. */
    ghost predicate Unwrapped() reads this {
      |history| < U32 && next <= |history| && lastDump <= |history|
    }

    constructor ()
      ensures Valid() && Unwrapped() && history == [] && fresh(logs)
    {
      logs := new Event[ENTRY](_ => Event(0, "", 0, 0, 0, []));
      curr, last, first, next, lastDump, history := 0, 0, 0, 0, 0, [];
    }

    method Log(e: Event, enabled: bool, filtered: bool)
      requires Valid()
      modifies `curr, `last, `history, logs
      ensures Valid()
      ensures history == if enabled && !filtered then old(history) + [Record(e)] else old(history)
    {
      if !enabled { return; }
      if filtered { return; }
      var data := CollectData(e.data);
      var entry := e.(data := data);
      RingPush(logs[..], history, entry);
      NextSlot(|history|);
      NextCounter(|history|);
      logs[curr] := entry;
      assert logs[..] == old(logs[..])[curr := entry];
      curr := (curr + 1) % ENTRY;
      last := (last + 1) % U32;
      history := history + [entry];
    }

    method LogBatch(events: seq<Event>)
      requires Valid()
      modifies `curr, `last, `history, logs
      ensures Valid() && history == old(history) + RecordAll(events)
    {
      assert RecordAll(events[..0]) == [];
      for i := 0 to |events|
        invariant Valid() && history == old(history) + RecordAll(events[..i])
      {
        Log(events[i], true, false);
        RecordOneMore(events, i);
      }
      assert events[..|events|] == events;
    }

    method DumpCalcRange(updateLast: bool, full: bool) returns (more: bool)
      requires Valid()
      modifies `first, `next, `lastDump
      ensures (more, first, next, lastDump) ==
              CalcRange(old(next), if updateLast then last else old(lastDump), if full then ENTRY else PRINT)
    {
      var max := if full then ENTRY else PRINT;
      first := next;
      if updateLast { lastDump := last; }
      if lastDump == first { return false; }
      if lastDump < first {
        first := first % ENTRY;
        if lastDump < first { lastDump := (lastDump + ENTRY) % U32; }
      }
      if (lastDump - first) % U32 > max { first := (lastDump - max) % U32; }
      next := (first + 1) % U32;
      return true;
    }

    /** The markers of a call, while the counters have not wrapped. */
    method Mark(updateLast: bool, full: bool) returns (more: bool)
      requires Valid() && Unwrapped() && (updateLast || next <= lastDump)
      modifies `first, `next, `lastDump
      ensures lastDump == if updateLast then |history| else old(lastDump)
      ensures more <==> old(next) != lastDump
      ensures !more ==> next == old(next)
      ensures more ==> first == NewestFrom(old(next), lastDump, full) && next == first + 1 <= lastDump
    {
      NoWrap(|history|);
      CalcRangeUnwrapped(next, if updateLast then last else lastDump, if full then ENTRY else PRINT);
      more := DumpCalcRange(updateLast, full);
    }

    /** One dump call: the entry of the slot that `first` names. */
    method DumpToBuffer(updateLast: bool, full: bool) returns (line: Option<Event>)
      requires Valid() && Unwrapped()
      requires updateLast || next <= lastDump
      modifies `first, `next, `lastDump
      ensures Valid() && Unwrapped()
      ensures lastDump == if updateLast then |history| else old(lastDump)
      ensures line.None? <==> old(next) == lastDump
      ensures line.None? ==> next == old(next)
      ensures line.Some? ==>
                && first == NewestFrom(old(next), lastDump, full)
                && next == first + 1 <= lastDump
                && line.value == history[NewestAt(|history|, first)]
    {
      var more := Mark(updateLast, full);
      if !more { return None; }
      SlotHolds(logs[..], history, first);
      line := Some(logs[first % ENTRY]);
    }

    /** The other threads' turn, then the next call of the same dump. */
    method NextLine(batches: seq<seq<Event>>, k: nat) returns (line: Option<Event>)
      requires Valid() && Unwrapped() && |history| + Coming(batches, k) < U32
      requires next <= lastDump <= next + PRINT
      modifies this, logs
      ensures Valid() && Unwrapped() && lastDump == old(lastDump)
      ensures history == old(history) + if k < |batches| then RecordAll(batches[k]) else []
      ensures line.None? <==> old(next) == lastDump
      ensures next == if line.Some? then old(next) + 1 else old(next)
      ensures line.Some? ==> old(next) < lastDump && line.value == history[NewestAt(|history|, old(next))]
    {
      if k < |batches| { LogBatch(batches[k]); }
      line := DumpToBuffer(false, false);
    }

    /** dump_all, with batches[k] the events other threads log between printing
        line k and the next call; seen[k] is the log's length when line k is read.
        The dump prints one line for each of the at most 256 newest events as of its
        start, in order, each read from its slot as it is at that time, and leaves
        next at that start. */
    method DumpAll(batches: seq<seq<Event>>) returns (lines: seq<Event>, ghost seen: seq<nat>)
      requires Valid() && Unwrapped() && |history| + Coming(batches, 0) < U32
      modifies this, logs
      ensures Valid() && Unwrapped() && old(history) <= history
      ensures |history| + Coming(batches, |lines|) == |old(history)| + Coming(batches, 0)
      ensures next == |old(history)|
      ensures |lines| == |seen| == Min(PRINT, |old(history)| - old(next))
      ensures LinesOk(lines, seen, history, |old(history)|, |old(history)| - |lines|)
      ensures |history| - |old(history)| <= ENTRY - PRINT ==> lines == old(history)[|old(history)| - |lines|..]
    {
      lines, seen := [], [];
      ghost var count := Min(PRINT, |history| - next);
      var line := ReadFirst(batches, count);
      while line.Some?
        invariant Dumping(old(history), batches, count, lines, seen, line)
        decreases count - |lines|
      {
        lines, seen, line := PrintOne(old(history), batches, count, lines, seen, line);
      }
      LinesFaithful(lines, seen, old(history), history);
    }

    method ReadFirst(ghost batches: seq<seq<Event>>, ghost count: nat) returns (line: Option<Event>)
      requires Valid() && Unwrapped() && |history| + Coming(batches, 0) < U32
      requires count == Min(PRINT, |history| - next)
      modifies `first, `next, `lastDump
      ensures Dumping(history, batches, count, [], [], line)
    {
      line := DumpToBuffer(true, false);
    }

    /** Mid-dump: `lines` printed so far, `line` read and not printed yet. */
    ghost predicate Dumping(start: seq<Event>, batches: seq<seq<Event>>, count: nat,
                            lines: seq<Event>, seen: seq<nat>, line: Option<Event>)
      reads this, logs
    {
      && Valid() && Facing(start, batches, count, |lines|, line)
      && LinesOk(lines, seen, history, |start|, |start| - count)
    }

    /** n lines are printed and the markers stand at the next one. */
    ghost predicate Facing(start: seq<Event>, batches: seq<seq<Event>>, count: nat, n: nat, line: Option<Event>)
      reads this
    {
      && Unwrapped() && lastDump == |start| && start <= history
      && n <= count <= PRINT && count <= |start|
      && |history| + Coming(batches, n) == |start| + Coming(batches, 0) < U32
      && (line.None? <==> n == count)
      && next == (if line.Some? then |start| - count + n + 1 else |start|)
      && (line.Some? ==> IsLine(line.value, history, |history|, |start| - count + n))
    }

    method ReadNext(
        ghost start: seq<Event>, batches: seq<seq<Event>>, ghost count: nat, n: nat, ghost line: Option<Event>)
      returns (line': Option<Event>)
      requires Valid() && Facing(start, batches, count, n, line) && line.Some?
      modifies this, logs
      ensures Valid() && Facing(start, batches, count, n + 1, line') && old(history) <= history
    {
      line' := NextLine(batches, n);
    }

    method PrintOne(ghost start: seq<Event>, batches: seq<seq<Event>>, ghost count: nat,
                    lines: seq<Event>, ghost seen: seq<nat>, line: Option<Event>)
      returns (lines': seq<Event>, ghost seen': seq<nat>, line': Option<Event>)
      requires Dumping(start, batches, count, lines, seen, line) && line.Some?
      modifies this, logs
      ensures Dumping(start, batches, count, lines', seen', line') && |lines'| == |lines| + 1
    {
      lines', seen' := lines + [line.value], seen + [|history|];
      LinesMore(lines, seen, history, |start|, |start| - count, line.value);
      line' := ReadNext(start, batches, count, |lines|, line);
      LinesLater(lines', seen', old(history), history, |start|, |start| - count);
    }
  }

  /** Lines from event `from` on, each read at or after length n0. */
  ghost predicate LinesOk(lines: seq<Event>, seen: seq<nat>, history: seq<Event>, n0: nat, from: nat) {
    && |lines| == |seen| && from + |lines| <= n0
    && forall k :: 0 <= k < |lines| ==>
         n0 <= seen[k] <= |history| && IsLine(lines[k], history, seen[k], from + k)
  }

  lemma LinesMore(lines: seq<Event>, seen: seq<nat>, history: seq<Event>, n0: nat, from: nat, line: Event)
    requires LinesOk(lines, seen, history, n0, from) && from + |lines| < n0 <= |history|
    requires IsLine(line, history, |history|, from + |lines|)
    ensures LinesOk(lines + [line], seen + [|history|], history, n0, from)
  {
  }

  lemma LinesLater(lines: seq<Event>, seen: seq<nat>, h: seq<Event>, h': seq<Event>, n0: nat, from: nat)
    requires LinesOk(lines, seen, h, n0, from) && h <= h'
    ensures LinesOk(lines, seen, h', n0, from)
  {
  }

  /** Few enough events arrived: the lines are the newest events of the start. */
  lemma LinesFaithful(lines: seq<Event>, seen: seq<nat>, start: seq<Event>, h: seq<Event>)
    requires |lines| <= PRINT && |lines| <= |start| && start <= h
    requires LinesOk(lines, seen, h, |start|, |start| - |lines|)
    ensures |h| - |start| <= ENTRY - PRINT ==> lines == start[|start| - |lines|..]
  {
    if |h| - |start| <= ENTRY - PRINT {
      var from := |start| - |lines|;
      forall k | 0 <= k < |lines| ensures lines[k] == start[from + k] {
        NewestAtIsItselfIff(seen[k], from + k);
      }
    }
  }

  /** A line read when the log held n events, for event i: the slot's content. */
  ghost predicate IsLine(line: Event, history: seq<Event>, n: nat, i: nat)
    requires i < n <= |history|
  {
    line == history[NewestAt(n, i)]
  }
}
