/**
 The register dump of sde_dbg.c: the buffer is sized first by walking all blocks,
 then filled by bumping an address while dumping. Range nodes remember their slot
 and write to it again in later dumps.
 */
module RegisterDump {
  import opened Common

  const ALIGN := 16      // REG_DUMP_ALIGN
  const NAME_LEN := 80   // REG_BASE_NAME_LEN
  const RANGE_LEN := 40  // RANGE_NAME_LEN
  const U32 := 0x1_0000_0000

  /** Where a range node's registers go: buffer number, offset, length. */
  datatype Slot = Slot(buf: nat, off: nat, len: nat)

  /** id tells the nodes apart, as their addresses do. */
  datatype Range = Range(id: nat, name: string, start: nat, end: nat, slot: Option<Slot>)

  /** whole stands for the block's own reg_dump, used when there are no ranges. */
  datatype Block = Block(name: string, hasBase: bool, hasCb: bool, maxOffset: nat, ranges: seq<Range>, whole: Range)

  datatype Flags = Flags(inLog: bool, inMem: bool)

  // ---------- Sizes ----------

  function DumpLength(r: Range, max: nat): nat {
    if r.start == 0 && r.end == 0 then max
    else if r.start < max then
      if r.end > max then max - r.start else if r.start < r.end then r.end - r.start else 0
    else 0
  }

  /** A range that is read at all lies inside the register block. */
  lemma DumpLengthInside(r: Range, max: nat)
    ensures DumpLength(r, max) > 0 ==> r.start + DumpLength(r, max) <= max
    ensures DumpLength(r, max) > 0 && !(r.start == 0 && r.end == 0) ==> r.start + DumpLength(r, max) == Min(r.end, max)
  {
  }

  /** What is read: the whole block when no range is given, else the part of the range
      below max_offset, and nothing when there is no such part. */
  lemma DumpLengthExact(r: Range, max: nat)
    ensures r.start == r.end == 0 ==> DumpLength(r, max) == max
    ensures r.end > 0 ==> DumpLength(r, max) == if r.start < Min(r.end, max) then Min(r.end, max) - r.start else 0
    ensures r.end == 0 < r.start ==> DumpLength(r, max) == 0
  {
  }

  /** A length in whole lines of sixteen bytes. */
  function Rounded(len: nat): (p: nat)
    ensures len <= p < len + ALIGN
  {
    RoundedBounds(len, (len + ALIGN - 1) / ALIGN);
    (len + ALIGN - 1) / ALIGN * ALIGN
  }

  lemma RoundedBounds(len: nat, q: int)
    requires q == (len + ALIGN - 1) / ALIGN
    ensures len <= q * ALIGN < len + ALIGN && q >= 0
  {
  }

  /** The same in the 32 bits of len_padded. */
  function Padded(len: nat): nat { Rounded(len) % U32 }

  /** A slot holds the lines written to it exactly up to 16 bytes short of 4 GB. */
  lemma SlotCoversIff(len: nat)
    ensures Rounded(len) <= Padded(len) <==> len <= U32 - ALIGN
  {
    RoundedBounds(len, (len + ALIGN - 1) / ALIGN);
    if len > U32 - ALIGN { LinesFrom(len); }
  }

  lemma LinesFrom(len: nat)
    requires len > U32 - ALIGN
    ensures Rounded(len) >= U32
  {
    assert (len + ALIGN - 1) / ALIGN >= U32 / ALIGN;
  }

  /** Cutting a length to 32 bits first makes no difference. */
  lemma PaddedTruncates(len: nat)
    ensures Padded(len % U32) == Padded(len)
  {
    var q, r := len / U32, len % U32;
    assert len == q * U32 + r;
    assert (len + ALIGN - 1) / ALIGN == q * (U32 / ALIGN) + (r + ALIGN - 1) / ALIGN;
    MultipleOff(Rounded(r), q);
  }

  lemma MultipleOff(x: nat, q: nat)
    ensures (q * U32 + x) % U32 == x % U32
  {
  }

  /** The sizing code rounds in 32 bits throughout. */
  lemma SizingRounds(len: nat)
    requires len < U32
    ensures (len + ALIGN - 1) % U32 / ALIGN * ALIGN == Padded(len)
  {
    SlotCoversIff(len);
    if len > U32 - ALIGN {
      assert len + ALIGN - 1 - U32 < ALIGN;
      assert Rounded(len) == U32;
    }
  }

  function Need(r: Range, max: nat): nat { NAME_LEN + RANGE_LEN + Padded(DumpLength(r, max)) }

  function NeedAll(rs: seq<Range>, max: nat): nat {
    if rs == [] then 0 else Need(rs[0], max) + NeedAll(rs[1..], max)
  }

  predicate WholeOk(b: Block) { b.whole.start == 0 && b.whole.end == 0 }

  function BlockSize(b: Block): nat {
    if !b.hasBase then 0
    else if b.ranges != [] then NeedAll(b.ranges, b.maxOffset)
    else Need(b.whole, b.maxOffset)
  }

  function TotalSize(bs: seq<Block>): nat {
    if bs == [] then 0 else TotalSize(bs[..|bs| - 1]) + BlockSize(bs[|bs| - 1])
  }

  // ---------- The buffers and the address ----------

  datatype Owner = Header | Regs(id: nat)
  datatype Claim = Claim(off: nat, len: nat, owner: Owner)
  datatype Buffer = Buffer(size: nat, claims: seq<Claim>)

  /** bufs: every buffer allocated so far, the current one last; addr: the
      bump address, relative to the current buffer. */
  datatype Dump = Dump(bufs: seq<Buffer>, addr: nat)

  function Current(d: Dump): Buffer
    requires d.bufs != []
  {
    d.bufs[|d.bufs| - 1]
  }

  function Bump(d: Dump, len: nat, owner: Owner): (d': Dump)
    requires d.bufs != []
    ensures |d'.bufs| == |d.bufs|
  {
    var b := Current(d);
    Dump(d.bufs[|d.bufs| - 1 := b.(claims := b.claims + [Claim(d.addr, len, owner)])], d.addr + len)
  }

  /** Header, then len bytes of registers: a slot is claimed on the first dump to memory. */
  function DumpOne(d: Dump, r: Range, len: nat, f: Flags): (res: (Dump, Range))
    requires d.bufs != []
    ensures |res.0.bufs| == |d.bufs|
  {
    var d1 := Bump(Bump(d, NAME_LEN, Header), RANGE_LEN, Header);
    if len == 0 || !f.inMem || r.slot.Some? then (d1, r)
    else (Bump(d1, Padded(len), Regs(r.id)), r.(slot := Some(Slot(|d.bufs| - 1, d1.addr, Padded(len)))))
  }

  predicate Excluded(name: string) { name == "vbif_rt" || name == "vbif_nrt" || name == "wb_2" }

  /** A node of a range list; its length is computed in 32 bits. */
  function DumpRange(d: Dump, r: Range, max: nat, f: Flags, secure: bool): (res: (Dump, Range))
    requires d.bufs != []
    ensures |res.0.bufs| == |d.bufs|
  {
    if secure && Excluded(r.name) then (d, r) else DumpOne(d, r, DumpLength(r, max) % U32, f)
  }

  function DumpRanges(d: Dump, rs: seq<Range>, max: nat, f: Flags, secure: bool): (res: (Dump, seq<Range>))
    requires d.bufs != []
    ensures |res.0.bufs| == |d.bufs| && |res.1| == |rs|
    decreases |rs|
  {
    if rs == [] then (d, [])
    else
      var (d1, r) := DumpRange(d, rs[0], max, f, secure);
      var (d2, rest) := DumpRanges(d1, rs[1..], max, f, secure);
      (d2, [r] + rest)
  }

  /** list_sort by start: stable insertion. */
  function Insert(r: Range, rs: seq<Range>): seq<Range> {
    if rs == [] || r.start <= rs[0].start then [r] + rs else [rs[0]] + Insert(r, rs[1..])
  }

  function Sort(rs: seq<Range>): seq<Range> { if rs == [] then [] else Insert(rs[0], Sort(rs[1..])) }

  function DumpBlock(d: Dump, b: Block, f: Flags, secure: bool): (res: (Dump, Block))
    requires d.bufs != []
    ensures |res.0.bufs| == |d.bufs|
  {
    if b.hasCb || !b.hasBase then (d, b)
    else if b.ranges != [] then
      var (d', rs) := DumpRanges(d, Sort(b.ranges), b.maxOffset, f, secure);
      (d', b.(ranges := rs))
    else
      var (d', w) := DumpOne(d, b.whole, b.maxOffset, f);
      (d', b.(whole := w))
  }

  predicate InRange(visits: seq<nat>, n: nat) { forall k :: 0 <= k < |visits| ==> visits[k] < n }

  /** Dumps the blocks at the given positions, in that order. */
  function DumpBlocks(d: Dump, bs: seq<Block>, visits: seq<nat>, f: Flags, secure: bool): (res: (Dump, seq<Block>))
    requires d.bufs != [] && InRange(visits, |bs|)
    ensures |res.1| == |bs| && |res.0.bufs| == |d.bufs|
    decreases |visits|
  {
    if visits == [] then (d, bs)
    else
      var v := visits[0];
      var (d1, b) := DumpBlock(d, bs[v], f, secure);
      DumpBlocks(d1, bs[v := b], visits[1..], f, secure)
  }

  /** _sde_dump_array with a successful allocation of the 32-bit size. */
  function DumpArray(bufs: seq<Buffer>, bs: seq<Block>, visits: seq<nat>, f: Flags, secure: bool)
    : (res: (Dump, seq<Block>))
    requires InRange(visits, |bs|)
    ensures |res.1| == |bs| && |res.0.bufs| == |bufs| + 1
  {
    DumpBlocks(Dump(bufs + [Buffer(TotalSize(bs) % U32, [])], 0), bs, visits, f, secure)
  }

  // ---------- Invariant of the address ----------

  /** Claims lie one after the other and end at addr. */
  ghost predicate Stacked(claims: seq<Claim>, addr: nat) {
    && (forall i :: 0 <= i < |claims| ==> claims[i].off + claims[i].len <= addr)
    && (forall i, j :: 0 <= i < j < |claims| ==> claims[i].off + claims[i].len <= claims[j].off)
  }

  /** The claims lie below addr, and the last one ends there. */
  ghost predicate Tight(d: Dump) {
    d.bufs != [] && Stacked(Current(d).claims, d.addr) && Flush(Current(d).claims, d.addr)
  }

  ghost predicate Flush(claims: seq<Claim>, addr: nat) {
    if claims == [] then addr == 0 else claims[|claims| - 1].off + claims[|claims| - 1].len == addr
  }

  /** d' continues d: claims are only added, and only to the current buffer. */
  ghost predicate Extends(d: Dump, d': Dump) {
    && d.bufs != [] && |d'.bufs| == |d.bufs|
    && d'.bufs[..|d.bufs| - 1] == d.bufs[..|d.bufs| - 1]
    && Current(d').size == Current(d).size && Current(d).claims <= Current(d').claims
  }

  /** The slot a node remembers is its own claim, of the right length. */
  ghost predicate SlotOk(bufs: seq<Buffer>, r: Range, max: nat) {
    r.slot.Some? ==>
      var s := r.slot.value;
      s.buf < |bufs| && s.len == Padded(DumpLength(r, max)) && Claim(s.off, s.len, Regs(r.id)) in bufs[s.buf].claims
  }

  ghost predicate BlockOk(bufs: seq<Buffer>, b: Block) {
    && WholeOk(b) && SlotOk(bufs, b.whole, b.maxOffset)
    && forall i :: 0 <= i < |b.ranges| ==> SlotOk(bufs, b.ranges[i], b.maxOffset)
  }

  ghost predicate BlocksOk(bufs: seq<Buffer>, bs: seq<Block>) {
    forall i :: 0 <= i < |bs| ==> BlockOk(bufs, bs[i])
  }

  /** d' is d with n more bytes claimed. */
  ghost predicate Grows(d: Dump, d': Dump, n: nat) {
    Tight(d) && Tight(d') && Extends(d, d') && d'.addr == d.addr + n
  }

  lemma BumpGrows(d: Dump, len: nat, owner: Owner)
    requires Tight(d)
    ensures Grows(d, Bump(d, len, owner), len)
    ensures Claim(d.addr, len, owner) in Current(Bump(d, len, owner)).claims
  {
  }

  lemma GrowsTrans(a: Dump, b: Dump, c: Dump, m: nat, n: nat)
    requires Grows(a, b, m) && Grows(b, c, n)
    ensures Grows(a, c, m + n)
  {
    ExtendsTrans(a, b, c);
  }

  lemma ExtendsTrans(a: Dump, b: Dump, c: Dump)
    requires Extends(a, b) && Extends(b, c)
    ensures Extends(a, c)
  {
  }

  lemma SlotKept(d: Dump, d': Dump, r: Range, max: nat)
    requires Extends(d, d') && SlotOk(d.bufs, r, max)
    ensures SlotOk(d'.bufs, r, max)
  {
    if r.slot.Some? {
      var s := r.slot.value;
      if s.buf < |d.bufs| - 1 { assert d'.bufs[s.buf] == d.bufs[..|d.bufs| - 1][s.buf]; }
    }
  }

  // ---------- What a dump takes ----------

  predicate Skipped(r: Range, secure: bool) { secure && Excluded(r.name) }

  /** The headers of a node, written on every visit. */
  function Head(r: Range, secure: bool): nat { if Skipped(r, secure) then 0 else NAME_LEN + RANGE_LEN }

  /** The slot of a node, claimed on its first dump to memory. */
  function Fresh(r: Range, max: nat, f: Flags, secure: bool): nat {
    if Skipped(r, secure) || !f.inMem || r.slot.Some? then 0 else Padded(DumpLength(r, max))
  }

  function HeadAll(rs: seq<Range>, secure: bool): nat {
    if rs == [] then 0 else Head(rs[0], secure) + HeadAll(rs[1..], secure)
  }

  function FreshAll(rs: seq<Range>, max: nat, f: Flags, secure: bool): nat {
    if rs == [] then 0 else Fresh(rs[0], max, f, secure) + FreshAll(rs[1..], max, f, secure)
  }

  function BlockHead(b: Block, secure: bool): nat {
    if b.hasCb || !b.hasBase then 0
    else if b.ranges != [] then HeadAll(b.ranges, secure)
    else Head(b.whole, false)
  }

  function BlockFresh(b: Block, f: Flags, secure: bool): nat {
    if b.hasCb || !b.hasBase then 0
    else if b.ranges != [] then FreshAll(b.ranges, b.maxOffset, f, secure)
    else Fresh(b.whole, b.maxOffset, f, false)
  }

  lemma PaddedZero()
    ensures Padded(0) == 0
  {
  }

  lemma HeadersGrow(d: Dump)
    requires Tight(d)
    ensures Grows(d, Bump(Bump(d, NAME_LEN, Header), RANGE_LEN, Header), NAME_LEN + RANGE_LEN)
  {
    var d0 := Bump(d, NAME_LEN, Header);
    BumpGrows(d, NAME_LEN, Header);
    BumpGrows(d0, RANGE_LEN, Header);
    GrowsTrans(d, d0, Bump(d0, RANGE_LEN, Header), NAME_LEN, RANGE_LEN);
  }

  lemma DumpOneOk(d: Dump, r: Range, max: nat, len: nat, f: Flags)
    requires Tight(d) && SlotOk(d.bufs, r, max) && (len == DumpLength(r, max) || len == DumpLength(r, max) % U32)
    ensures var (d', r') := DumpOne(d, r, len, f);
            && Grows(d, d', Head(r, false) + Fresh(r, max, f, false))
            && SlotOk(d'.bufs, r', max) && r' == r.(slot := r'.slot)
            && (forall secure :: Fresh(r', max, f, secure) == 0)
  {
    var d1 := Bump(Bump(d, NAME_LEN, Header), RANGE_LEN, Header);
    HeadersGrow(d);
    PaddedZero();
    PaddedTruncates(DumpLength(r, max));
    if len == 0 || !f.inMem || r.slot.Some? {
      SlotKept(d, d1, r, max);
    } else {
      ClaimOk(d, d1, r, max, Padded(len));
    }
  }

  /** The slot of a node is claimed after its headers. */
  lemma ClaimOk(d: Dump, d1: Dump, r: Range, max: nat, padded: nat)
    requires Grows(d, d1, NAME_LEN + RANGE_LEN) && padded == Padded(DumpLength(r, max))
    ensures var d2 := Bump(d1, padded, Regs(r.id));
            && Grows(d, d2, NAME_LEN + RANGE_LEN + padded)
            && SlotOk(d2.bufs, r.(slot := Some(Slot(|d1.bufs| - 1, d1.addr, padded))), max)
  {
    BumpGrows(d1, padded, Regs(r.id));
    GrowsTrans(d, d1, Bump(d1, padded, Regs(r.id)), NAME_LEN + RANGE_LEN, padded);
  }

  // ---------- Ranges and blocks ----------

  /** Measured and taken room of a list, together. */
  ghost predicate SameRoom(xs: seq<Range>, ys: seq<Range>, max: nat, f: Flags, secure: bool) {
    && NeedAll(xs, max) == NeedAll(ys, max)
    && HeadAll(xs, secure) == HeadAll(ys, secure) && FreshAll(xs, max, f, secure) == FreshAll(ys, max, f, secure)
  }

  lemma {:induction false} InsertKeeps(r: Range, rs: seq<Range>, max: nat, f: Flags, secure: bool)
    ensures SameRoom(Insert(r, rs), [r] + rs, max, f, secure)
  {
    if !(rs == [] || r.start <= rs[0].start) {
      InsertKeeps(r, rs[1..], max, f, secure);
      assert Insert(r, rs)[1..] == Insert(r, rs[1..]);
      assert ([r] + rs)[1..] == rs && ([r] + rs[1..])[1..] == rs[1..];
    }
  }

  lemma {:induction false} InsertPermutes(r: Range, rs: seq<Range>)
    ensures multiset(Insert(r, rs)) == multiset{r} + multiset(rs) && Insert(r, rs) != []
  {
    if !(rs == [] || r.start <= rs[0].start) {
      InsertPermutes(r, rs[1..]);
      assert rs == [rs[0]] + rs[1..];
    }
  }

  /** Sorting permutes the nodes, so the room they need and take is the same. */
  lemma {:induction false} SortKeeps(rs: seq<Range>, max: nat, f: Flags, secure: bool)
    ensures SameRoom(Sort(rs), rs, max, f, secure)
  {
    if rs != [] {
      var rest := Sort(rs[1..]);
      SortKeeps(rs[1..], max, f, secure);
      InsertKeeps(rs[0], rest, max, f, secure);
      assert ([rs[0]] + rest)[1..] == rest;
    }
  }

  lemma {:induction false} SortPermutes(rs: seq<Range>)
    ensures multiset(Sort(rs)) == multiset(rs) && |Sort(rs)| == |rs|
  {
    if rs != [] {
      SortPermutes(rs[1..]);
      InsertPermutes(rs[0], Sort(rs[1..]));
      assert rs == [rs[0]] + rs[1..];
    }
    assert |multiset(Sort(rs))| == |multiset(rs)|;
  }

  ghost predicate Ordered(rs: seq<Range>) { forall i, j :: 0 <= i < j < |rs| ==> rs[i].start <= rs[j].start }

  lemma {:induction false} InsertOrders(r: Range, rs: seq<Range>)
    requires Ordered(rs)
    ensures Ordered(Insert(r, rs))
  {
    if rs != [] && r.start > rs[0].start {
      InsertOrders(r, rs[1..]);
      InsertPermutes(r, rs[1..]);
      var out := Insert(r, rs[1..]);
      forall k | 0 <= k < |out| ensures rs[0].start <= out[k].start {
        assert out[k] in multiset(out);
        assert out[k] == r || out[k] in multiset(rs[1..]);
      }
      assert Insert(r, rs) == [rs[0]] + out;
    }
  }

  /** Nodes are dumped in the order of their start offsets. */
  lemma {:induction false} SortOrders(rs: seq<Range>)
    ensures Ordered(Sort(rs))
  {
    if rs != [] {
      SortOrders(rs[1..]);
      InsertOrders(rs[0], Sort(rs[1..]));
    }
  }

  ghost predicate RangesOk(bufs: seq<Buffer>, rs: seq<Range>, max: nat) {
    forall i :: 0 <= i < |rs| ==> SlotOk(bufs, rs[i], max)
  }

  lemma RangesCons(bufs: seq<Buffer>, r: Range, rs: seq<Range>, max: nat)
    requires SlotOk(bufs, r, max) && RangesOk(bufs, rs, max)
    ensures RangesOk(bufs, [r] + rs, max)
  {
  }

  lemma SortOk(bufs: seq<Buffer>, rs: seq<Range>, max: nat)
    requires RangesOk(bufs, rs, max)
    ensures RangesOk(bufs, Sort(rs), max)
  {
    SortPermutes(rs);
    forall i | 0 <= i < |Sort(rs)| ensures SlotOk(bufs, Sort(rs)[i], max) {
      assert Sort(rs)[i] in multiset(rs);
    }
  }

  /** One node of the list, dumped or passed over. */
  lemma DumpFirstOk(d: Dump, rs: seq<Range>, max: nat, f: Flags, secure: bool)
    requires Tight(d) && RangesOk(d.bufs, rs, max) && rs != []
    ensures var (d1, r) := DumpRange(d, rs[0], max, f, secure);
            && Grows(d, d1, Head(rs[0], secure) + Fresh(rs[0], max, f, secure))
            && SlotOk(d1.bufs, r, max) && r == rs[0].(slot := r.slot) && Fresh(r, max, f, secure) == 0
            && RangesOk(d1.bufs, rs[1..], max)
  {
    DumpOneOk(d, rs[0], max, DumpLength(rs[0], max) % U32, f);
    var (d1, r) := DumpRange(d, rs[0], max, f, secure);
    forall i | 0 <= i < |rs| - 1 ensures SlotOk(d1.bufs, rs[1..][i], max) {
      SlotKept(d, d1, rs[i + 1], max);
    }
  }

  /** The nodes afterwards measure the same and have no slot left to claim. */
  ghost predicate Settled(rs: seq<Range>, rs': seq<Range>, max: nat, f: Flags, secure: bool) {
    && NeedAll(rs', max) == NeedAll(rs, max)
    && HeadAll(rs', secure) == HeadAll(rs, secure) && FreshAll(rs', max, f, secure) == 0
  }

  lemma SettledCons(r: Range, r': Range, rs: seq<Range>, rs': seq<Range>, max: nat, f: Flags, secure: bool)
    requires r' == r.(slot := r'.slot) && Fresh(r', max, f, secure) == 0 && Settled(rs, rs', max, f, secure)
    ensures Settled([r] + rs, [r'] + rs', max, f, secure)
  {
    assert ([r] + rs)[1..] == rs && ([r'] + rs')[1..] == rs';
  }

  lemma {:induction false} DumpRangesOk(d: Dump, rs: seq<Range>, max: nat, f: Flags, secure: bool)
    requires Tight(d) && RangesOk(d.bufs, rs, max)
    ensures var (d', rs') := DumpRanges(d, rs, max, f, secure);
            && Grows(d, d', HeadAll(rs, secure) + FreshAll(rs, max, f, secure))
            && RangesOk(d'.bufs, rs', max) && Settled(rs, rs', max, f, secure)
    decreases |rs|
  {
    if rs != [] {
      DumpFirstOk(d, rs, max, f, secure);
      var (d1, r) := DumpRange(d, rs[0], max, f, secure);
      DumpRangesOk(d1, rs[1..], max, f, secure);
      var (d2, rest) := DumpRanges(d1, rs[1..], max, f, secure);
      GrowsTrans(d, d1, d2, Head(rs[0], secure) + Fresh(rs[0], max, f, secure),
                 HeadAll(rs[1..], secure) + FreshAll(rs[1..], max, f, secure));
      SlotKept(d1, d2, r, max);
      RangesCons(d2.bufs, r, rest, max);
      SettledCons(rs[0], r, rs[1..], rest, max, f, secure);
      assert rs == [rs[0]] + rs[1..];
    }
  }

  /** A block dump takes its headers and its new slots, and leaves none. */
  lemma DumpBlockOk(d: Dump, b: Block, f: Flags, secure: bool)
    requires Tight(d) && BlockOk(d.bufs, b)
    ensures var (d', b') := DumpBlock(d, b, f, secure);
            && Grows(d, d', BlockHead(b, secure) + BlockFresh(b, f, secure))
            && BlockOk(d'.bufs, b') && BlockSize(b') == BlockSize(b) && b'.name == b.name
            && BlockHead(b', secure) == BlockHead(b, secure) && BlockFresh(b', f, secure) == 0
  {
    if b.hasCb || !b.hasBase {
    } else if b.ranges != [] {
      SortOk(d.bufs, b.ranges, b.maxOffset);
      SortKeeps(b.ranges, b.maxOffset, f, secure);
      SortPermutes(b.ranges);
      DumpRangesOk(d, Sort(b.ranges), b.maxOffset, f, secure);
      SlotKept(d, DumpBlock(d, b, f, secure).0, b.whole, b.maxOffset);
    } else {
      DumpOneOk(d, b.whole, b.maxOffset, b.maxOffset, f);
    }
  }

  // ---------- Whole dumps ----------

  function Sizes(bs: seq<Block>): seq<nat> { seq(|bs|, i requires 0 <= i < |bs| => BlockSize(bs[i])) }

  function Sum(ns: seq<nat>): nat { if ns == [] then 0 else Sum(ns[..|ns| - 1]) + ns[|ns| - 1] }

  function SumAt(ns: seq<nat>, visits: seq<nat>): nat
    requires InRange(visits, |ns|)
  {
    if visits == [] then 0 else ns[visits[0]] + SumAt(ns, visits[1..])
  }

  lemma {:induction false} TotalIsSum(bs: seq<Block>)
    ensures TotalSize(bs) == Sum(Sizes(bs))
  {
    if bs != [] {
      TotalIsSum(bs[..|bs| - 1]);
      assert Sizes(bs)[..|bs| - 1] == Sizes(bs[..|bs| - 1]);
    }
  }

  lemma {:induction false} SumZeroed(ns: seq<nat>, v: nat)
    requires v < |ns|
    ensures Sum(ns[v := 0]) == Sum(ns) - ns[v]
  {
    var n := |ns| - 1;
    if v < n {
      SumZeroed(ns[..n], v);
      assert ns[v := 0][..n] == ns[..n][v := 0];
    } else {
      assert ns[v := 0][..n] == ns[..n];
    }
  }

  lemma {:induction false} SumAtSame(ns: seq<nat>, v: nat, visits: seq<nat>)
    requires InRange(visits, |ns|) && v < |ns| && v !in visits
    ensures SumAt(ns[v := 0], visits) == SumAt(ns, visits)
  {
    if visits != [] { SumAtSame(ns, v, visits[1..]); }
  }

  /** Visiting distinct positions needs no more than the total. */
  lemma {:induction false} DistinctVisitsFit(ns: seq<nat>, visits: seq<nat>)
    requires InRange(visits, |ns|) && Distinct(visits)
    ensures SumAt(ns, visits) <= Sum(ns)
    decreases |visits|
  {
    if visits != [] {
      var v := visits[0];
      DistinctVisitsFit(ns[v := 0], visits[1..]);
      SumAtSame(ns, v, visits[1..]);
      SumZeroed(ns, v);
    }
  }

  function Heads(bs: seq<Block>, secure: bool): seq<nat> {
    seq(|bs|, i requires 0 <= i < |bs| => BlockHead(bs[i], secure))
  }

  function Freshes(bs: seq<Block>, f: Flags, secure: bool): seq<nat> {
    seq(|bs|, i requires 0 <= i < |bs| => BlockFresh(bs[i], f, secure))
  }

  function Names(bs: seq<Block>): seq<string> { seq(|bs|, i requires 0 <= i < |bs| => bs[i].name) }

  /** Every visit takes the headers, only the first one of a block its new slots. */
  function Cost(heads: seq<nat>, slots: seq<nat>, visits: seq<nat>): nat
    requires |heads| == |slots| && InRange(visits, |heads|)
    decreases |visits|
  {
    if visits == [] then 0
    else heads[visits[0]] + slots[visits[0]] + Cost(heads, slots[visits[0] := 0], visits[1..])
  }

  /** The room a request takes, read off the block list before it. */
  function Taken(bs: seq<Block>, visits: seq<nat>, f: Flags, secure: bool): nat
    requires InRange(visits, |bs|)
  {
    Cost(Heads(bs, secure), Freshes(bs, f, secure), visits)
  }

  ghost predicate SameBlocks(bs: seq<Block>, bs': seq<Block>) {
    Sizes(bs') == Sizes(bs) && Names(bs') == Names(bs)
  }

  /** One block of a request: the other blocks are as they were, its own slots are taken. */
  lemma DumpVisitOk(d: Dump, bs: seq<Block>, v: nat, f: Flags, secure: bool)
    requires Tight(d) && BlocksOk(d.bufs, bs) && v < |bs|
    ensures var (d1, b) := DumpBlock(d, bs[v], f, secure);
            && Grows(d, d1, Heads(bs, secure)[v] + Freshes(bs, f, secure)[v])
            && BlocksOk(d1.bufs, bs[v := b]) && SameBlocks(bs, bs[v := b])
            && Heads(bs[v := b], secure) == Heads(bs, secure)
            && Freshes(bs[v := b], f, secure) == Freshes(bs, f, secure)[v := 0]
  {
    DumpBlockOk(d, bs[v], f, secure);
    var (d1, b) := DumpBlock(d, bs[v], f, secure);
    var bs1 := bs[v := b];
    forall i | 0 <= i < |bs1| ensures BlockOk(d1.bufs, bs1[i]) { if i != v { BlockKept(d, d1, bs[i]); } }
  }

  /** The end address of a dump, exactly. */
  lemma {:induction false} DumpBlocksOk(d: Dump, bs: seq<Block>, visits: seq<nat>, f: Flags, secure: bool)
    requires Tight(d) && BlocksOk(d.bufs, bs) && InRange(visits, |bs|)
    ensures var (d', bs') := DumpBlocks(d, bs, visits, f, secure);
            && Grows(d, d', Taken(bs, visits, f, secure))
            && BlocksOk(d'.bufs, bs') && SameBlocks(bs, bs')
    decreases |visits|
  {
    if visits != [] {
      var v := visits[0];
      DumpVisitOk(d, bs, v, f, secure);
      var (d1, b) := DumpBlock(d, bs[v], f, secure);
      DumpBlocksOk(d1, bs[v := b], visits[1..], f, secure);
      GrowsTrans(d, d1, DumpBlocks(d1, bs[v := b], visits[1..], f, secure).0,
                 Heads(bs, secure)[v] + Freshes(bs, f, secure)[v], Taken(bs[v := b], visits[1..], f, secure));
    }
  }

  lemma BlockKept(d: Dump, d': Dump, b: Block)
    requires Extends(d, d') && BlockOk(d.bufs, b)
    ensures BlockOk(d'.bufs, b)
  {
    SlotKept(d, d', b.whole, b.maxOffset);
    forall i | 0 <= i < |b.ranges| ensures SlotOk(d'.bufs, b.ranges[i], b.maxOffset) {
      SlotKept(d, d', b.ranges[i], b.maxOffset);
    }
  }

  /** Every buffer holds its claims one after the other, inside its size. */
  ghost predicate BuffersOk(bufs: seq<Buffer>) {
    forall k :: 0 <= k < |bufs| ==> Stacked(bufs[k].claims, bufs[k].size)
  }

  /** A request stays inside the buffer allocated for it, and so keeps every buffer
      in order, exactly when the room it takes is at most the 32-bit size measured. */
  lemma {:induction false} DumpArrayFitsIff(bufs: seq<Buffer>, bs: seq<Block>, visits: seq<nat>, f: Flags, secure: bool)
    requires BlocksOk(bufs, bs) && InRange(visits, |bs|)
    ensures var (d, bs') := DumpArray(bufs, bs, visits, f, secure);
            && d.addr == Taken(bs, visits, f, secure)
            && (BuffersOk(d.bufs) <==> BuffersOk(bufs) && Taken(bs, visits, f, secure) <= TotalSize(bs) % U32)
            && BlocksOk(d.bufs, bs') && SameBlocks(bs, bs')
  {
    var d0 := Dump(bufs + [Buffer(TotalSize(bs) % U32, [])], 0);
    forall i | 0 <= i < |bs| ensures BlockOk(d0.bufs, bs[i]) { assert BlockOk(bufs, bs[i]); }
    DumpBlocksOk(d0, bs, visits, f, secure);
    BuffersExtended(bufs, d0, DumpBlocks(d0, bs, visits, f, secure).0);
  }

  lemma BuffersExtended(bufs: seq<Buffer>, d0: Dump, d: Dump)
    requires |d0.bufs| == |bufs| + 1 && d0.bufs[..|bufs|] == bufs
    requires Extends(d0, d) && Tight(d)
    ensures BuffersOk(d.bufs) <==> BuffersOk(bufs) && d.addr <= Current(d0).size
  {
    var n := |bufs|;
    assert forall k :: 0 <= k < n ==> d.bufs[k] == d.bufs[..n][k] == bufs[k];
    assert d.bufs[n] == Current(d);
    if BuffersOk(d.bufs) {
      assert forall k :: 0 <= k < n ==> Stacked(d.bufs[k].claims, d.bufs[k].size);
      assert Stacked(Current(d).claims, Current(d).size);
    }
  }

  lemma {:induction false} HeadFreshBelow(rs: seq<Range>, max: nat, f: Flags, secure: bool)
    ensures HeadAll(rs, secure) + FreshAll(rs, max, f, secure) <= NeedAll(rs, max)
  {
    if rs != [] { HeadFreshBelow(rs[1..], max, f, secure); }
  }

  lemma BlockBelow(b: Block, f: Flags, secure: bool)
    ensures BlockHead(b, secure) + BlockFresh(b, f, secure) <= BlockSize(b)
  {
    HeadFreshBelow(b.ranges, b.maxOffset, f, secure);
  }

  lemma {:induction false} CostBelow(heads: seq<nat>, slots: seq<nat>, sizes: seq<nat>, visits: seq<nat>)
    requires |heads| == |slots| == |sizes| && InRange(visits, |heads|)
    requires forall i :: 0 <= i < |heads| ==> heads[i] + slots[i] <= sizes[i]
    ensures Cost(heads, slots, visits) <= SumAt(sizes, visits)
    decreases |visits|
  {
    if visits != [] { CostBelow(heads, slots[visits[0] := 0], sizes, visits[1..]); }
  }

  /** Distinct blocks always fit, unless the total itself does not fit 32 bits. */
  lemma DistinctVisitsTake(bs: seq<Block>, visits: seq<nat>, f: Flags, secure: bool)
    requires InRange(visits, |bs|) && Distinct(visits)
    ensures Taken(bs, visits, f, secure) <= TotalSize(bs)
  {
    forall i | 0 <= i < |bs| ensures Heads(bs, secure)[i] + Freshes(bs, f, secure)[i] <= Sizes(bs)[i] {
      BlockBelow(bs[i], f, secure);
    }
    CostBelow(Heads(bs, secure), Freshes(bs, f, secure), Sizes(bs), visits);
    DistinctVisitsFit(Sizes(bs), visits);
    TotalIsSum(bs);
  }

  // ---------- Dumping all blocks by name ----------

  function FirstNamed(bs: seq<Block>, name: string): (i: nat)
    ensures i <= |bs| && (i < |bs| ==> bs[i].name == name) && forall k :: 0 <= k < i ==> bs[k].name != name
  {
    if bs == [] || bs[0].name == name then 0 else FirstNamed(bs[1..], name) + 1
  }

  /** A full dump asks for a block: it is named and, if secure, not excluded. */
  predicate Asked(name: string, secure: bool) { name != "" && !(secure && Excluded(name)) }

  /** _sde_dump_reg_all: each named block is looked up again by name. */
  function AllVisits(bs: seq<Block>, secure: bool, k: nat): (vs: seq<nat>)
    requires k <= |bs|
    ensures InRange(vs, |bs|)
    decreases |bs| - k
  {
    if k == |bs| then []
    else if !Asked(bs[k].name, secure) then AllVisits(bs, secure, k + 1)
    else [FirstNamed(bs, bs[k].name)] + AllVisits(bs, secure, k + 1)
  }

  /** No two blocks share a name; unnamed blocks are never looked up. */
  ghost predicate NamesDistinct(names: seq<string>) {
    forall i, j :: 0 <= i < j < |names| && names[i] != "" ==> names[i] != names[j]
  }

  lemma FirstNamedIsItself(bs: seq<Block>, k: nat)
    requires k < |bs| && NamesDistinct(Names(bs)) && bs[k].name != ""
    ensures FirstNamed(bs, bs[k].name) == k
  {
    forall i | 0 <= i < k ensures bs[i].name != bs[k].name {
      assert Names(bs)[i] == bs[i].name && Names(bs)[k] == bs[k].name;
    }
  }

  /** With distinct names the lookup finds the block it started from, so a full
      dump visits distinct positions and fits. */
  lemma {:induction false} DistinctNamesVisitOnce(bs: seq<Block>, secure: bool, k: nat)
    requires k <= |bs| && NamesDistinct(Names(bs))
    ensures Distinct(AllVisits(bs, secure, k))
    ensures forall i :: 0 <= i < |AllVisits(bs, secure, k)| ==> AllVisits(bs, secure, k)[i] >= k
    decreases |bs| - k
  {
    if k < |bs| {
      DistinctNamesVisitOnce(bs, secure, k + 1);
      if bs[k].name != "" { FirstNamedIsItself(bs, k); }
    }
  }

  /** And it visits every named block, in a secure dump except the three that must not
      be read then. */
  lemma {:induction false} AllVisitsExact(bs: seq<Block>, secure: bool, k: nat, i: nat)
    requires k <= |bs| && i < |bs| && NamesDistinct(Names(bs))
    ensures i in AllVisits(bs, secure, k) <==>
            i >= k && bs[i].name != "" && !(secure && bs[i].name in ["vbif_rt", "vbif_nrt", "wb_2"])
    decreases |bs| - k
  {
    if k < |bs| {
      AllVisitsExact(bs, secure, k + 1, i);
      if bs[k].name != "" { FirstNamedIsItself(bs, k); }
    }
  }

  /** The measure is tight: a first dump to memory that skips nothing takes exactly the
      measured size of a block. */
  lemma FirstDumpTakesAll(b: Block, f: Flags)
    requires b.hasBase && !b.hasCb && f.inMem && b.whole.slot.None?
    requires forall i :: 0 <= i < |b.ranges| ==> b.ranges[i].slot.None?
    ensures BlockHead(b, false) + BlockFresh(b, f, false) == BlockSize(b)
  {
    RangesTakeAll(b.ranges, b.maxOffset, f);
  }

  lemma {:induction false} RangesTakeAll(rs: seq<Range>, max: nat, f: Flags)
    requires f.inMem && forall i :: 0 <= i < |rs| ==> rs[i].slot.None?
    ensures HeadAll(rs, false) + FreshAll(rs, max, f, false) == NeedAll(rs, max)
  {
    if rs != [] {
      assert forall i :: 0 <= i < |rs| - 1 ==> rs[1..][i] == rs[i + 1];
      RangesTakeAll(rs[1..], max, f);
    }
  }

  // ---------- Every sequence of dumps ----------

  /** Everything, or a list of blocks. */
  datatype Request = All(flags: Flags, secure: bool) | Listed(visits: seq<nat>, flags: Flags, secure: bool)

  predicate RequestOk(q: Request, n: nat) { q.Listed? ==> InRange(q.visits, n) }

  function VisitsOf(bs: seq<Block>, q: Request): (vs: seq<nat>)
    requires RequestOk(q, |bs|)
    ensures InRange(vs, |bs|)
  {
    if q.All? then AllVisits(bs, q.secure, 0) else q.visits
  }

  predicate RequestsOk(reqs: seq<Request>, n: nat) { forall k :: 0 <= k < |reqs| ==> RequestOk(reqs[k], n) }

  function RunDumps(bufs: seq<Buffer>, bs: seq<Block>, reqs: seq<Request>): (seq<Buffer>, seq<Block>)
    requires RequestsOk(reqs, |bs|)
    decreases |reqs|
  {
    if reqs == [] then (bufs, bs)
    else
      var (d, bs') := DumpArray(bufs, bs, VisitsOf(bs, reqs[0]), reqs[0].flags, reqs[0].secure);
      RunDumps(d.bufs, bs', reqs[1..])
  }

  predicate Fits(bs: seq<Block>, q: Request)
    requires RequestOk(q, |bs|)
  {
    Taken(bs, VisitsOf(bs, q), q.flags, q.secure) <= TotalSize(bs) % U32
  }

  /** Every request fits when its turn comes. */
  predicate AllFit(bufs: seq<Buffer>, bs: seq<Block>, reqs: seq<Request>)
    requires RequestsOk(reqs, |bs|)
    decreases |reqs|
  {
    reqs == [] ||
    (Fits(bs, reqs[0]) &&
     var (d, bs') := DumpArray(bufs, bs, VisitsOf(bs, reqs[0]), reqs[0].flags, reqs[0].secure);
     AllFit(d.bufs, bs', reqs[1..]))
  }

  /** After any sequence of requests: every claim is inside its buffer and claims of
      one buffer do not overlap, exactly when every request fitted; and every
      remembered slot is a claim of its own node in any case. */
  lemma {:induction false} RunDumpsIff(bufs: seq<Buffer>, bs: seq<Block>, reqs: seq<Request>)
    requires BlocksOk(bufs, bs) && RequestsOk(reqs, |bs|)
    ensures var (bufs', bs') := RunDumps(bufs, bs, reqs);
            && (BuffersOk(bufs') <==> BuffersOk(bufs) && AllFit(bufs, bs, reqs))
            && BlocksOk(bufs', bs') && SameBlocks(bs, bs')
    decreases |reqs|
  {
    if reqs != [] {
      var q := reqs[0];
      DumpArrayFitsIff(bufs, bs, VisitsOf(bs, q), q.flags, q.secure);
      var (d, bs') := DumpArray(bufs, bs, VisitsOf(bs, q), q.flags, q.secure);
      RunDumpsIff(d.bufs, bs', reqs[1..]);
    }
  }

  lemma SameTotal(bs: seq<Block>, bs': seq<Block>)
    requires SameBlocks(bs, bs')
    ensures TotalSize(bs') == TotalSize(bs)
  {
    TotalIsSum(bs);
    TotalIsSum(bs');
  }

  /** With distinct block names and no block twice in a list, every run of requests,
      full dumps included, keeps every claim inside its buffer and apart. */
  lemma {:induction false} RunDumpsOk(bufs: seq<Buffer>, bs: seq<Block>, reqs: seq<Request>)
    requires BuffersOk(bufs) && BlocksOk(bufs, bs) && TotalSize(bs) < U32 && NamesDistinct(Names(bs))
    requires RequestsOk(reqs, |bs|) && forall k :: 0 <= k < |reqs| && reqs[k].Listed? ==> Distinct(reqs[k].visits)
    ensures AllFit(bufs, bs, reqs)
    ensures var (bufs', bs') := RunDumps(bufs, bs, reqs); BuffersOk(bufs') && BlocksOk(bufs', bs')
    decreases |reqs|
  {
    if reqs != [] {
      var q := reqs[0];
      RequestFits(bs, q);
      DumpArrayFitsIff(bufs, bs, VisitsOf(bs, q), q.flags, q.secure);
      var (d, bs') := DumpArray(bufs, bs, VisitsOf(bs, q), q.flags, q.secure);
      SameTotal(bs, bs');
      RunDumpsOk(d.bufs, bs', reqs[1..]);
    }
  }

  lemma RequestFits(bs: seq<Block>, q: Request)
    requires RequestOk(q, |bs|) && TotalSize(bs) < U32 && NamesDistinct(Names(bs))
    requires q.Listed? ==> Distinct(q.visits)
    ensures Fits(bs, q)
  {
    if q.All? { DistinctNamesVisitOnce(bs, q.secure, 0); }
    DistinctVisitsTake(bs, VisitsOf(bs, q), q.flags, q.secure);
    Below32(TotalSize(bs));
  }

  lemma Below32(n: nat)
    requires n < U32
    ensures n % U32 == n
  {
  }

  ghost predicate Apart(a: Slot, b: Slot) { a.buf != b.buf || a.off + a.len <= b.off || b.off + b.len <= a.off }

  /** Two nodes never write registers to overlapping memory, in whichever dumps
      their slots were claimed, nor over a header. */
  lemma SlotsApart(bufs: seq<Buffer>, r: Range, max: nat, c: Claim, k: nat)
    requires BuffersOk(bufs) && SlotOk(bufs, r, max) && r.slot.Some? && k < |bufs| && c in bufs[k].claims
    requires c.owner != Regs(r.id)
    ensures var s := r.slot.value;
            s.off + s.len <= bufs[s.buf].size && Apart(s, Slot(k, c.off, c.len))
  {
    var s := r.slot.value;
    var mine := Claim(s.off, s.len, Regs(r.id));
    var i :| 0 <= i < |bufs[s.buf].claims| && bufs[s.buf].claims[i] == mine;
    var j :| 0 <= j < |bufs[k].claims| && bufs[k].claims[j] == c;
  }

  /** Listing a block twice is not measured: alone in the list, the second pass
      writes another header, 120 bytes past the end. */
  lemma RepeatedBlockOverflows(bufs: seq<Buffer>, b: Block, f: Flags, secure: bool)
    requires b.hasBase && !b.hasCb && b.ranges == [] && WholeOk(b) && b.whole.slot.None? && f.inMem
    ensures Taken([b], [0, 0], f, secure) == TotalSize([b]) + NAME_LEN + RANGE_LEN
    ensures !Fits([b], Listed([0, 0], f, secure))
  {
    var heads, slots := Heads([b], secure), Freshes([b], f, secure);
    assert [0, 0][1..] == [0] && [0][1..] == [];
    assert slots[0 := 0] == [0] && [0 as nat][0 := 0] == [0];
    assert Cost(heads, [0], [0]) == NAME_LEN + RANGE_LEN;
    assert [b][..0] == [] && TotalSize([b]) == Need(b.whole, b.maxOffset);
  }

  /** The same visits with a second block measured beside it stay inside. */
  lemma RepeatedBlockFits(bufs: seq<Buffer>, b: Block, c: Block, f: Flags, secure: bool)
    requires b.hasBase && !b.hasCb && b.ranges == [] && WholeOk(b) && b.whole.slot.None? && f.inMem
    requires c.hasBase && c.ranges == [] && TotalSize([b, c]) < U32
    ensures Fits([b, c], Listed([0, 0], f, secure))
  {
    var bs := [b, c];
    var heads, slots := Heads(bs, secure), Freshes(bs, f, secure);
    assert [0, 0][1..] == [0] && [0][1..] == [];
    assert Cost(heads, slots[0 := 0], [0]) == NAME_LEN + RANGE_LEN;
    assert bs[..1] == [b] && [b][..0] == [];
    assert TotalSize([b]) == BlockSize(b);
    assert TotalSize(bs) == BlockSize(b) + BlockSize(c);
  }

  // ---------- Reading the registers ----------

  /** Each word read starts inside the range; all of each lies inside exactly when the
      length is a whole number of words, else the last read runs past the end. */
  lemma WordsInsideIff(len: nat)
    ensures (forall i :: 0 <= i < |WordsRead(len)| ==> WordsRead(len)[i] + 4 <= len) <==> len % 4 == 0
  {
    var n := |WordsRead(len)|;
    if len % 4 != 0 { assert WordsRead(len)[n - 1] + 4 > len; }
  }

  /** Offsets of the words read from a range of len bytes. */
  function WordsRead(len: nat): seq<nat> { seq((len + 3) / 4, i requires 0 <= i => 4 * i) }

  /** The word loop of _sde_dump_reg: one word of the slot per word read, the rest of
      the padded slot is zero. */
  method DumpReg(read: nat --> int, start: nat, len: nat) returns (words: seq<int>)
    requires forall a :: start <= a < start + len ==> read.requires(a)
    ensures 4 * |words| == Rounded(len) && |WordsRead(len)| <= |words|
    ensures forall i :: 0 <= i < |WordsRead(len)| ==> words[i] == read(start + WordsRead(len)[i])
    ensures forall i :: |WordsRead(len)| <= i < |words| ==> words[i] == 0
  {
    words := [];
    var lines := (len + ALIGN - 1) / ALIGN;
    var addr, end := start, start + len;
    for i := 0 to lines
      invariant |words| == 4 * i && addr == start + ALIGN * i
      invariant forall k :: 0 <= k < |words| ==> words[k] == if 4 * k < len then read(start + 4 * k) else 0
    {
      var x0 := if addr < end then read(addr) else 0;
      var x4 := if addr + 4 < end then read(addr + 4) else 0;
      var x8 := if addr + 8 < end then read(addr + 8) else 0;
      var xc := if addr + 12 < end then read(addr + 12) else 0;
      words := words + [x0, x4, x8, xc];
      addr := addr + ALIGN;
    }
  }

  // ---------- The imperative code ----------

  lemma {:induction false} NeedAllSnoc(rs: seq<Range>, i: nat, max: nat)
    requires i < |rs|
    ensures NeedAll(rs[..i + 1], max) == NeedAll(rs[..i], max) + Need(rs[i], max)
  {
    if i > 0 {
      NeedAllSnoc(rs[1..], i - 1, max);
      assert rs[..i + 1][1..] == rs[1..][..i] && rs[..i][1..] == rs[1..][..i - 1];
    }
  }

  lemma AddWraps(a: nat, b: nat)
    ensures (a % U32 + b) % U32 == (a + b) % U32
  {
  }

  /** len_align of the sizing code, for a length cut to 32 bits. */
  method SizeLines(length: nat) returns (lines: nat)
    ensures lines * ALIGN == Padded(length)
  {
    var len := length % U32;
    lines := (len + ALIGN - 1) % U32 / ALIGN;
    SizingRounds(len);
    PaddedTruncates(length);
  }

  /** _sde_dbg_get_reg_blk_size on 32-bit arithmetic. */
  method GetBlkSize(b: Block) returns (size: nat)
    requires WholeOk(b)
    ensures size == BlockSize(b) % U32
  {
    size := 0;
    if !b.hasBase { return; }
    if b.ranges != [] {
      for i := 0 to |b.ranges|
        invariant size == NeedAll(b.ranges[..i], b.maxOffset) % U32
      {
        NeedAllSnoc(b.ranges, i, b.maxOffset);
        AddWraps(NeedAll(b.ranges[..i], b.maxOffset), Need(b.ranges[i], b.maxOffset));
        var lines := SizeLines(DumpLength(b.ranges[i], b.maxOffset));
        size := (size + NAME_LEN + RANGE_LEN + lines * ALIGN) % U32;
      }
      assert b.ranges[..|b.ranges|] == b.ranges;
    } else {
      var lines := SizeLines(b.maxOffset);
      size := (NAME_LEN + RANGE_LEN + lines * ALIGN) % U32;
    }
  }

  method GetDumpSize(bs: seq<Block>) returns (size: nat)
    requires forall i :: 0 <= i < |bs| ==> WholeOk(bs[i])
    ensures size == TotalSize(bs) % U32
  {
    size := 0;
    for i := 0 to |bs|
      invariant size == TotalSize(bs[..i]) % U32
    {
      assert bs[..i + 1][..i] == bs[..i];
      var n := GetBlkSize(bs[i]);
      AddWraps(TotalSize(bs[..i]), n);
      AddWraps(BlockSize(bs[i]), TotalSize(bs[..i]));
      size := (size + n) % U32;
    }
    assert bs[..|bs|] == bs;
  }

  lemma DumpRangesStep(d: Dump, rs: seq<Range>, i: nat, max: nat, f: Flags, secure: bool)
    requires d.bufs != [] && i < |rs|
    ensures var (d1, r) := DumpRange(d, rs[i], max, f, secure);
      var (d2, rest) := DumpRanges(d1, rs[i + 1..], max, f, secure);
      DumpRanges(d, rs[i..], max, f, secure) == (d2, [r] + rest)
  {
    assert rs[i..][1..] == rs[i + 1..] && rs[i..][0] == rs[i];
  }

  class RegDumper {
    var bufs: seq<Buffer>
    var addr: nat
    var blocks: seq<Block>

    ghost function Now(): Dump reads this { Dump(bufs, addr) }

    method Take(len: nat, owner: Owner)
      requires bufs != []
      modifies `bufs, `addr
      ensures Now() == Bump(old(Now()), len, owner)
    {
      var n := |bufs| - 1;
      bufs := bufs[n := bufs[n].(claims := bufs[n].claims + [Claim(addr, len, owner)])];
      addr := addr + len;
    }

    method DumpNode(r: Range, len: nat, f: Flags) returns (r': Range)
      requires bufs != []
      modifies `bufs, `addr
      ensures (Now(), r') == DumpOne(old(Now()), r, len, f)
    {
      r' := r;
      Take(NAME_LEN, Header);
      Take(RANGE_LEN, Header);
      if len == 0 { return; }
      if !f.inLog && !f.inMem { return; }
      var padded := (len + ALIGN - 1) / ALIGN * ALIGN % U32;
      if f.inMem && r.slot.None? {
        r' := r.(slot := Some(Slot(|bufs| - 1, addr, padded)));
        Take(padded, Regs(r.id));
      }
    }

    method DumpList(ranges: seq<Range>, max: nat, f: Flags, secure: bool) returns (rs: seq<Range>)
      requires bufs != []
      modifies `bufs, `addr
      ensures (Now(), rs) == DumpRanges(old(Now()), Sort(ranges), max, f, secure)
    {
      var sorted := Sort(ranges);
      ghost var all := DumpRanges(Now(), sorted, max, f, secure);
      rs := [];
      assert sorted[0..] == sorted;
      for i := 0 to |sorted|
        invariant |bufs| == |old(bufs)|
        invariant all.0 == DumpRanges(Now(), sorted[i..], max, f, secure).0
        invariant all.1 == rs + DumpRanges(Now(), sorted[i..], max, f, secure).1
      {
        var r := DumpNext(sorted, i, max, f, secure);
        rs := rs + [r];
      }
      assert sorted[|sorted|..] == [] && all.1 == rs;
    }

    /** The loop body at node i. */
    method DumpNext(sorted: seq<Range>, i: nat, max: nat, f: Flags, secure: bool) returns (r: Range)
      requires bufs != [] && i < |sorted|
      modifies `bufs, `addr
      ensures |bufs| == |old(bufs)|
      ensures var (d, rest) := DumpRanges(Now(), sorted[i + 1..], max, f, secure);
              DumpRanges(old(Now()), sorted[i..], max, f, secure) == (d, [r] + rest)
    {
      DumpRangesStep(Now(), sorted, i, max, f, secure);
      r := sorted[i];
      if !(secure && Excluded(r.name)) { r := DumpNode(r, DumpLength(r, max) % U32, f); }
    }

    method DumpByRanges(v: nat, f: Flags, secure: bool)
      requires bufs != [] && v < |blocks|
      modifies this
      ensures |bufs| == |old(bufs)|
      ensures var (d, b) := DumpBlock(old(Now()), old(blocks)[v], f, secure);
              Now() == d && blocks == old(blocks)[v := b]
    {
      var b := blocks[v];
      if b.hasCb || !b.hasBase {
        assert blocks[v := b] == blocks;
        return;
      }
      if b.ranges != [] {
        var rs := DumpList(b.ranges, b.maxOffset, f, secure);
        b := b.(ranges := rs);
      } else {
        var w := DumpNode(b.whole, b.maxOffset, f);
        b := b.(whole := w);
      }
      blocks := blocks[v := b];
    }

    method DumpArrayOf(visits: seq<nat>, f: Flags, secure: bool)
      requires InRange(visits, |blocks|)
      requires forall i :: 0 <= i < |blocks| ==> WholeOk(blocks[i])
      modifies this
      ensures (Now(), blocks) == DumpArray(old(bufs), old(blocks), visits, f, secure)
    {
      var size := GetDumpSize(blocks);
      bufs := bufs + [Buffer(size, [])];
      addr := 0;
      for i := 0 to |visits|
        invariant |blocks| == |old(blocks)| && bufs != []
        invariant DumpArray(old(bufs), old(blocks), visits, f, secure)
               == DumpBlocks(Now(), blocks, visits[i..], f, secure)
      {
        DumpByRanges(visits[i], f, secure);
        assert visits[i..][1..] == visits[i + 1..];
      }
    }

    /** The lookup of _sde_dump_reg_by_blk. */
    method Lookup(name: string) returns (i: nat)
      ensures i == FirstNamed(blocks, name)
    {
      i := 0;
      while i < |blocks| && blocks[i].name != name
        invariant i <= |blocks| && forall k :: 0 <= k < i ==> blocks[k].name != name
      {
        i := i + 1;
      }
    }

    /** A request for everything: each named block is looked up again and dumped. */
    method DumpAll(f: Flags, secure: bool)
      requires forall i :: 0 <= i < |blocks| ==> WholeOk(blocks[i])
      modifies this
      ensures (Now(), blocks) == DumpArray(old(bufs), old(blocks), AllVisits(old(blocks), secure, 0), f, secure)
    {
      var size := GetDumpSize(blocks);
      bufs := bufs + [Buffer(size, [])];
      addr := 0;
      ghost var whole := DumpArray(old(bufs), old(blocks), AllVisits(old(blocks), secure, 0), f, secure);
      for k := 0 to |blocks|
        invariant |blocks| == |old(blocks)| && bufs != []
        invariant whole == DumpBlocks(Now(), blocks, AllVisits(blocks, secure, k), f, secure)
      {
        if Asked(blocks[k].name, secure) { DumpNamed(k, f, secure); }
      }
    }

    method DumpNamed(k: nat, f: Flags, secure: bool)
      requires bufs != [] && k < |blocks| && Asked(blocks[k].name, secure)
      modifies this
      ensures |blocks| == |old(blocks)| && bufs != []
      ensures DumpBlocks(Now(), blocks, AllVisits(blocks, secure, k + 1), f, secure)
           == DumpBlocks(old(Now()), old(blocks), AllVisits(old(blocks), secure, k), f, secure)
    {
      var i := Lookup(blocks[k].name);
      ghost var rest := AllVisits(blocks, secure, k + 1);
      assert AllVisits(blocks, secure, k) == [i] + rest && ([i] + rest)[1..] == rest;
      DumpByRanges(i, f, secure);
      AllVisitsByName(old(blocks), blocks, secure, k + 1);
    }
  }

  /** The visits depend on the names only. */
  lemma {:induction false} AllVisitsByName(bs: seq<Block>, bs': seq<Block>, secure: bool, k: nat)
    requires |bs| == |bs'| && k <= |bs| && forall i :: 0 <= i < |bs| ==> bs'[i].name == bs[i].name
    ensures AllVisits(bs', secure, k) == AllVisits(bs, secure, k)
    decreases |bs| - k
  {
    if k < |bs| {
      AllVisitsByName(bs, bs', secure, k + 1);
      FirstNamedByName(bs, bs', bs[k].name);
      assert Asked(bs'[k].name, secure) == Asked(bs[k].name, secure);
    }
  }

  lemma {:induction false} FirstNamedByName(bs: seq<Block>, bs': seq<Block>, name: string)
    requires |bs| == |bs'| && forall i :: 0 <= i < |bs| ==> bs'[i].name == bs[i].name
    ensures FirstNamed(bs', name) == FirstNamed(bs, name)
  {
    var i, j := FirstNamed(bs, name), FirstNamed(bs', name);
    if i < |bs| { assert bs'[i].name == name; }
    if j < |bs| { assert bs[j].name == name; }
  }
}
