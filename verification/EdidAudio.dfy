/**
 Audio data blocks of a CEA-861 extension, sde_edid_parser.c. The extension is a byte
 sequence; byte 2 is where its data block collection ends, the collection starts at
 byte 4. A data block is a header byte (tag in the top three bits, length in the
 others) followed by its payload, section 7.5 of CEA-861-E.
 */
module EdidAudio {
  import opened Common

  type byte = n: nat | n < 256

  const DBC_START := 4
  const AUDIO := 1
  const MAX_BLOCKS := 5
  const MAX_LEN := 30
  const CAPACITY := 150

  /** A block found in an extension: where its header is, and how long its payload. */
  datatype Block = Block(at: nat, len: nat)

  function Len(b: byte): nat { b % 32 }
  function Tag(b: byte): nat { b / 32 }

  /** The walk never leaves this memory: the byte after the collection exists. The
      driver checks no such thing; an extension block has 128 bytes. */
  predicate Readable(cea: seq<byte>) { |cea| > 2 && cea[2] < |cea| }

  /** Every block of a kind, in order, that the walk from `at` can return. A block may
      reach one byte past the end of the collection. */
  function BlocksFrom(cea: seq<byte>, at: nat, tag: nat): (r: seq<Block>)
    requires Readable(cea)
    decreases cea[2] - at
  {
    if at >= cea[2] then [] else
      var len := Len(cea[at]);
      var rest := BlocksFrom(cea, at + 1 + len, tag);
      if at + len <= cea[2] && Tag(cea[at]) == tag then [Block(at, len)] + rest else rest
  }

  /** A returned block starts in the collection, and its payload can be read. */
  lemma {:induction false} BlocksInside(cea: seq<byte>, at: nat, tag: nat)
    requires Readable(cea)
    ensures forall b :: b in BlocksFrom(cea, at, tag) ==> at <= b.at < cea[2] && b.at + b.len <= cea[2] < |cea|
    decreases cea[2] - at
  {
    if at < cea[2] { BlocksInside(cea, at + 1 + Len(cea[at]), tag); }
  }

  /** The bytes after the header; none of a block that is not in the extension. */
  function Payload(cea: seq<byte>, b: Block): (p: seq<byte>)
    ensures |p| <= b.len && (b.at + b.len < |cea| ==> |p| == b.len)
  {
    if b.at + b.len < |cea| then cea[b.at + 1..b.at + 1 + b.len] else []
  }

  function Payloads(cea: seq<byte>, bs: seq<Block>): seq<byte> {
    if bs == [] then [] else Payloads(cea, bs[..|bs| - 1]) + Payload(cea, bs[|bs| - 1])
  }

  /** _sde_edid_find_block. */
  method FindBlock(cea: seq<byte>, start: nat, tag: nat) returns (r: Option<Block>)
    requires Readable(cea) && start >= DBC_START
    ensures var found := BlocksFrom(cea, start, tag);
      if r.None? then found == []
      else found != [] && found[0] == r.value && found[1..] == BlocksFrom(cea, r.value.at + 1 + r.value.len, tag)
    ensures r.Some? ==> r.value.at >= start
  {
    if cea[2] == 0 || cea[2] == 4 { return None; }
    var at := start;
    while at < cea[2]
      invariant at >= start && BlocksFrom(cea, start, tag) == BlocksFrom(cea, at, tag)
      decreases cea[2] - at
    {
      var len := Len(cea[at]);
      if at + len <= cea[2] && Tag(cea[at]) == tag { return Some(Block(at, len)); }
      at := at + 1 + len;
    }
    return None;
  }

  predicate Refused(b: Block, taken: nat) { b.len > MAX_LEN || taken >= MAX_BLOCKS }

  /** The first block from n on that is too long or one too many, or the end. */
  function FirstRefused(bs: seq<Block>, n: nat): (k: nat)
    requires n <= |bs|
    ensures n <= k <= |bs| && (k < |bs| ==> Refused(bs[k], k))
    ensures forall i :: n <= i < k ==> !Refused(bs[i], i)
    decreases |bs| - n
  {
    if n < |bs| && !Refused(bs[n], n) then FirstRefused(bs, n + 1) else n
  }

  function AudioBlocks(cea: seq<byte>): seq<Block>
    requires Readable(cea)
  {
    BlocksFrom(cea, DBC_START, AUDIO)
  }

  /** What the loop collects from a list of blocks: the payloads of those before the
      first refused. */
  function Collects(cea: seq<byte>, bs: seq<Block>): seq<byte> { Payloads(cea, bs[..FirstRefused(bs, 0)]) }

  /** A block is refused after some audio was collected. */
  predicate JamsOn(cea: seq<byte>, bs: seq<Block>) { FirstRefused(bs, 0) < |bs| && Collects(cea, bs) != [] }

  function AudioData(cea: seq<byte>): seq<byte>
    requires Readable(cea)
  {
    Collects(cea, AudioBlocks(cea))
  }

  predicate Jams(cea: seq<byte>)
    requires Readable(cea)
  {
    JamsOn(cea, AudioBlocks(cea))
  }

  /** The do-while loop between two evaluations of its condition. */
  datatype Loop = Running(data: seq<byte>, at: nat, taken: nat) | Halted(data: seq<byte>)

  /** What a search from an offset, and the ones after it, will return. */
  type Search = nat -> seq<Block>

  function AudioSearch(cea: seq<byte>): Search {
    (at: nat) => if Readable(cea) then BlocksFrom(cea, at, AUDIO) else []
  }

  function Next(cea: seq<byte>, search: Search, s: Loop): Loop {
    if s.Halted? then s else
      var bs := search(s.at);
      if bs == [] then Halted(s.data)
      else if Refused(bs[0], s.taken) then
        if s.data == [] then Halted(s.data) else s
      else Running(s.data + Payload(cea, bs[0]), bs[0].at + 1 + bs[0].len, s.taken + 1)
  }

  /** The loop after n rounds. */
  function RoundsOf(cea: seq<byte>, search: Search, n: nat): Loop {
    if n == 0 then Running([], DBC_START, 0) else Next(cea, search, RoundsOf(cea, search, n - 1))
  }

  function Rounds(cea: seq<byte>, n: nat): Loop { RoundsOf(cea, AudioSearch(cea), n) }

  /** The same loop over the list of blocks instead of the bytes they are found in. */
  datatype Queue = Going(data: seq<byte>, ahead: seq<Block>, taken: nat) | Done(data: seq<byte>)

  function Advance(cea: seq<byte>, q: Queue): Queue {
    if q.Done? then q
    else if q.ahead == [] then Done(q.data)
    else if Refused(q.ahead[0], q.taken) then
      if q.data == [] then Done(q.data) else q
    else Going(q.data + Payload(cea, q.ahead[0]), q.ahead[1..], q.taken + 1)
  }

  function Advances(cea: seq<byte>, bs: seq<Block>, n: nat): Queue {
    if n == 0 then Going([], bs, 0) else Advance(cea, Advances(cea, bs, n - 1))
  }

  function Ahead(search: Search, s: Loop): Queue {
    if s.Halted? then Done(s.data) else Going(s.data, search(s.at), s.taken)
  }

  /** Searching on after a block finds the blocks that follow it. */
  ghost predicate Chained(search: Search) {
    forall at: nat :: search(at) != [] ==>
      search(at)[1..] == search(search(at)[0].at + 1 + search(at)[0].len)
  }

  lemma AudioChained(cea: seq<byte>)
    requires Readable(cea)
    ensures Chained(AudioSearch(cea)) && AudioSearch(cea)(DBC_START) == AudioBlocks(cea)
  {
    var search := AudioSearch(cea);
    forall at: nat | search(at) != []
      ensures search(at)[1..] == search(search(at)[0].at + 1 + search(at)[0].len)
    {
      FindAgain(cea, at, AUDIO);
    }
  }

  lemma {:induction false} FindAgain(cea: seq<byte>, at: nat, tag: nat)
    requires Readable(cea) && BlocksFrom(cea, at, tag) != []
    ensures var bs := BlocksFrom(cea, at, tag); bs[1..] == BlocksFrom(cea, bs[0].at + 1 + bs[0].len, tag)
    decreases cea[2] - at
  {
    var len := Len(cea[at]);
    if !(at + len <= cea[2] && Tag(cea[at]) == tag) { FindAgain(cea, at + 1 + len, tag); }
  }

  lemma {:induction false} RoundsAdvance(cea: seq<byte>, search: Search, n: nat)
    requires Chained(search)
    ensures Ahead(search, RoundsOf(cea, search, n)) == Advances(cea, search(DBC_START), n)
  {
    if n > 0 {
      RoundsAdvance(cea, search, n - 1);
      NextAdvances(cea, search, RoundsOf(cea, search, n - 1));
    }
  }

  lemma NextAdvances(cea: seq<byte>, search: Search, s: Loop)
    requires Chained(search)
    ensures Ahead(search, Next(cea, search, s)) == Advance(cea, Ahead(search, s))
  {
    if s.Running? && search(s.at) != [] {
      var b := search(s.at)[0];
      assert search(s.at)[1..] == search(b.at + 1 + b.len);
    }
  }

  lemma PayloadsNext(cea: seq<byte>, bs: seq<Block>, n: nat)
    requires n < |bs|
    ensures Payloads(cea, bs[..n + 1]) == Payloads(cea, bs[..n]) + Payload(cea, bs[n])
  {
    assert bs[..n + 1][..n] == bs[..n];
  }

  lemma TailStep(bs: seq<Block>, n: nat)
    requires n < |bs|
    ensures bs[n..] != [] && bs[n..][0] == bs[n] && bs[n..][1..] == bs[n + 1..]
  {
  }

  /** One block is taken in each round up to the first refused one. */
  lemma {:induction false} RoundsTake(cea: seq<byte>, bs: seq<Block>, n: nat)
    requires n <= FirstRefused(bs, 0)
    ensures Advances(cea, bs, n) == Going(Payloads(cea, bs[..n]), bs[n..], n)
  {
    if n > 0 {
      RoundsTake(cea, bs, n - 1);
      TailStep(bs, n - 1);
      PayloadsNext(cea, bs, n - 1);
      assert !Refused(bs[n - 1], n - 1);
    }
  }

  /** The round after them ends the loop, or changes nothing. */
  lemma RoundEnds(cea: seq<byte>, bs: seq<Block>, k: nat)
    requires k == FirstRefused(bs, 0)
    ensures var q := Advances(cea, bs, k); Advance(cea, q) == if JamsOn(cea, bs) then q else Done(Collects(cea, bs))
  {
    RoundsTake(cea, bs, k);
    if k < |bs| { TailStep(bs, k); }
  }

  /** And so do all others. */
  lemma {:induction false} RoundsSettle(cea: seq<byte>, bs: seq<Block>, k: nat, n: nat, jams: bool, data: seq<byte>)
    requires n >= k && Advance(cea, Advances(cea, bs, k)) == if jams then Advances(cea, bs, k) else Done(data)
    ensures if jams then Advances(cea, bs, n) == Advances(cea, bs, k) else n > k ==> Advances(cea, bs, n) == Done(data)
  {
    if n > k { RoundsSettle(cea, bs, k, n - 1, jams, data); }
  }

  /** The loop ends exactly when it does not jam, and then it holds the audio data;
      a jammed loop goes round for ever on the same block. */
  lemma EndsIff(cea: seq<byte>)
    requires Readable(cea)
    ensures (exists n :: Rounds(cea, n).Halted?) <==> !Jams(cea)
    ensures !Jams(cea) ==> Rounds(cea, FirstRefused(AudioBlocks(cea), 0) + 1) == Halted(AudioData(cea))
    ensures forall n :: Rounds(cea, n).Halted? ==> Rounds(cea, n).data == AudioData(cea)
  {
    var k := FirstRefused(AudioBlocks(cea), 0) + 1;
    if !Jams(cea) {
      Halts(cea, k);
      assert Rounds(cea, k).Halted?;
    }
    forall n: nat | Rounds(cea, n).Halted? ensures !Jams(cea) && Rounds(cea, n).data == AudioData(cea) {
      HaltsOnly(cea, n);
    }
  }

  lemma Halts(cea: seq<byte>, n: nat)
    requires Readable(cea) && !Jams(cea) && n == FirstRefused(AudioBlocks(cea), 0) + 1
    ensures Rounds(cea, n) == Halted(AudioData(cea))
  {
    RoundEnds(cea, AudioBlocks(cea), n - 1);
    AudioChained(cea);
    RoundsAdvance(cea, AudioSearch(cea), n);
  }

  lemma HaltsOnly(cea: seq<byte>, n: nat)
    requires Readable(cea) && Rounds(cea, n).Halted?
    ensures !Jams(cea) && Rounds(cea, n).data == AudioData(cea)
  {
    var bs := AudioBlocks(cea);
    var k := FirstRefused(bs, 0);
    AudioChained(cea);
    RoundsAdvance(cea, AudioSearch(cea), n);
    RoundsTake(cea, bs, Min(n, k));
    RoundEnds(cea, bs, k);
    if n > k { RoundsSettle(cea, bs, k, n, JamsOn(cea, bs), Collects(cea, bs)); }
  }

  lemma {:induction false} PayloadsSize(cea: seq<byte>, bs: seq<Block>)
    requires forall i :: 0 <= i < |bs| ==> bs[i].len <= MAX_LEN
    ensures |Payloads(cea, bs)| <= MAX_LEN * |bs|
  {
    if bs != [] { PayloadsSize(cea, bs[..|bs| - 1]); }
  }

  /** The buffer of five times thirty bytes is never overrun, jammed or not. */
  lemma TakenFits(cea: seq<byte>, bs: seq<Block>, n: nat)
    requires n <= FirstRefused(bs, 0)
    ensures |Payloads(cea, bs[..n])| <= MAX_LEN * n <= CAPACITY
  {
    if n > 0 { assert !Refused(bs[n - 1], n - 1); }
    forall i | 0 <= i < n ensures bs[i].len <= MAX_LEN { assert !Refused(bs[i], i); }
    PayloadsSize(cea, bs[..n]);
  }

  lemma RoomForNext(cea: seq<byte>, bs: seq<Block>, n: nat)
    requires n <= FirstRefused(bs, 0) && n < |bs| && !Refused(bs[n], n)
    ensures n + 1 <= FirstRefused(bs, 0) && |Payloads(cea, bs[..n]) + Payload(cea, bs[n])| <= CAPACITY
    ensures Payloads(cea, bs[..n + 1]) == Payloads(cea, bs[..n]) + Payload(cea, bs[n])
  {
    assert n < FirstRefused(bs, 0);
    PayloadsNext(cea, bs, n);
    TakenFits(cea, bs, n + 1);
  }

  /** A one-byte audio block followed by one of thirty-one bytes: the loop never ends. */
  lemma LongBlockJams()
    ensures var cea: seq<byte> := [2, 3, 38, 0, 33, 9, 63] + seq(121, _ => 0);
      && Readable(cea) && AudioBlocks(cea) == [Block(4, 1), Block(6, 31)]
      && Jams(cea) && forall n :: Rounds(cea, n).Running?
  {
    var cea: seq<byte> := [2, 3, 38, 0, 33, 9, 63] + seq(121, _ => 0);
    assert cea[4] == 33 && cea[6] == 63;
    assert BlocksFrom(cea, 38, AUDIO) == [];
    assert BlocksFrom(cea, 6, AUDIO) == [Block(6, 31)];
    var bs := AudioBlocks(cea);
    assert FirstRefused(bs, 0) == 1 && bs[..1] == [Block(4, 1)];
    assert Payloads(cea, [Block(4, 1)]) == Payload(cea, Block(4, 1));
    EndsIff(cea);
  }

  // ----- What the collection was built from.

  /** A data block as a display vendor writes it. */
  datatype DataBlock = DataBlock(tag: nat, payload: seq<byte>)

  ghost predicate WellFormed(ds: seq<DataBlock>) {
    forall i :: 0 <= i < |ds| ==> ds[i].tag < 8 && |ds[i].payload| < 32
  }

  function Encode(ds: seq<DataBlock>): seq<byte>
    requires WellFormed(ds)
  {
    if ds == [] then [] else [(ds[0].tag * 32 + |ds[0].payload|) as byte] + ds[0].payload + Encode(ds[1..])
  }

  /** The audio payloads among the blocks. */
  function AudioOf(ds: seq<DataBlock>): seq<seq<byte>> {
    if ds == [] then [] else (if ds[0].tag == AUDIO then [ds[0].payload] else []) + AudioOf(ds[1..])
  }

  function Concat(ps: seq<seq<byte>>): seq<byte> {
    if ps == [] then [] else Concat(ps[..|ps| - 1]) + ps[|ps| - 1]
  }

  /** The blocks ds fill [at, cea[2]) of the extension exactly. */
  ghost predicate Tiles(cea: seq<byte>, at: nat, ds: seq<DataBlock>)
    requires Readable(cea)
  {
    WellFormed(ds) && at <= cea[2] && cea[at..cea[2]] == Encode(ds)
  }

  lemma SliceOfSlice(s: seq<byte>, lo: nat, hi: nat, i: nat, j: nat)
    requires lo <= hi <= |s| && i <= j <= hi - lo
    ensures s[lo..hi][i..j] == s[lo + i..lo + j]
  {
    var a, b := s[lo..hi][i..j], s[lo + i..lo + j];
    assert |a| == |b|;
    forall k | 0 <= k < |a| ensures a[k] == b[k] {
      assert a[k] == s[lo..hi][i + k] == s[lo + i + k];
    }
  }

  lemma TilesStep(cea: seq<byte>, at: nat, ds: seq<DataBlock>)
    requires Readable(cea) && Tiles(cea, at, ds) && ds != []
    ensures at < cea[2] && Len(cea[at]) == |ds[0].payload| && Tag(cea[at]) == ds[0].tag
    ensures at + 1 + |ds[0].payload| <= cea[2] && cea[at + 1..at + 1 + |ds[0].payload|] == ds[0].payload
    ensures Tiles(cea, at + 1 + |ds[0].payload|, ds[1..])
  {
    var d, e := ds[0], cea[at..cea[2]];
    var rest := Encode(ds[1..]);
    assert e == [(d.tag * 32 + |d.payload|) as byte] + d.payload + rest;
    assert e[0] == cea[at];
    var mid := at + 1 + |d.payload|;
    assert cea[mid..cea[2]] == e[1 + |d.payload|..] == rest;
    assert e[1..1 + |d.payload|] == d.payload;
    SliceOfSlice(cea, at, cea[2], 1, 1 + |d.payload|);
  }

  ghost predicate Matches(cea: seq<byte>, bs: seq<Block>, ps: seq<seq<byte>>) {
    |bs| == |ps| && forall i :: 0 <= i < |bs| ==> Payload(cea, bs[i]) == ps[i]
  }

  lemma MatchesCons(cea: seq<byte>, b: Block, bs: seq<Block>, ps: seq<seq<byte>>)
    requires Matches(cea, bs, ps)
    ensures Matches(cea, [b] + bs, [Payload(cea, b)] + ps)
  {
  }

  /** On an exact tiling the walk finds the audio blocks and nothing else. */
  lemma {:induction false} TiledBlocks(cea: seq<byte>, at: nat, ds: seq<DataBlock>)
    requires Readable(cea) && Tiles(cea, at, ds)
    ensures Matches(cea, BlocksFrom(cea, at, AUDIO), AudioOf(ds))
    decreases |ds|
  {
    if ds == [] {
      assert cea[at..cea[2]] == [];
    } else {
      TilesStep(cea, at, ds);
      var next := at + 1 + |ds[0].payload|;
      TiledBlocks(cea, next, ds[1..]);
      WalkStep(cea, at, next, ds[0], AudioOf(ds[1..]));
    }
  }

  /** One block further back, in the bytes and in the list. */
  lemma WalkStep(cea: seq<byte>, at: nat, next: nat, d: DataBlock, ps: seq<seq<byte>>)
    requires Readable(cea) && at < next <= cea[2] && Len(cea[at]) == next - at - 1 && Tag(cea[at]) == d.tag
    requires cea[at + 1..next] == d.payload && Matches(cea, BlocksFrom(cea, next, AUDIO), ps)
    ensures Matches(cea, BlocksFrom(cea, at, AUDIO), (if d.tag == AUDIO then [d.payload] else []) + ps)
  {
    if d.tag == AUDIO {
      var b := Block(at, next - at - 1);
      MatchesCons(cea, b, BlocksFrom(cea, next, AUDIO), ps);
    } else {
      assert [] + ps == ps;
    }
  }

  lemma {:induction false} PayloadsAre(cea: seq<byte>, bs: seq<Block>, ps: seq<seq<byte>>)
    requires Matches(cea, bs, ps)
    ensures Payloads(cea, bs) == Concat(ps)
  {
    if bs != [] { PayloadsAre(cea, bs[..|bs| - 1], ps[..|ps| - 1]); }
  }

  /** Round trip: at most five audio blocks of at most thirty bytes in a collection
      the blocks tile come back as the concatenation of their payloads, in order. */
  lemma ExtractsWhatWasEncoded(cea: seq<byte>, ds: seq<DataBlock>)
    requires Readable(cea) && Tiles(cea, DBC_START, ds)
    requires |AudioOf(ds)| <= 5 && forall i :: 0 <= i < |AudioOf(ds)| ==> |AudioOf(ds)[i]| <= 30
    ensures !Jams(cea) && AudioData(cea) == Concat(AudioOf(ds)) && |AudioData(cea)| <= 150
    ensures exists n :: Rounds(cea, n) == Halted(Concat(AudioOf(ds)))
  {
    var bs := AudioBlocks(cea);
    TiledBlocks(cea, DBC_START, ds);
    BlocksInside(cea, DBC_START, AUDIO);
    forall i | 0 <= i < |bs| ensures !Refused(bs[i], i) {
      assert bs[i] in bs && |Payload(cea, bs[i])| == bs[i].len;
    }
    var k := FirstRefused(bs, 0);
    assert k == |bs| && bs[..k] == bs;
    PayloadsAre(cea, bs, AudioOf(ds));
    TakenFits(cea, bs, k);
    EndsIff(cea);
  }

  // ----- The other searches of the parser.

  /** An extension block of 128 bytes whose collection end can be read. */
  predicate Extension(cea: seq<byte>) { |cea| >= 128 && cea[2] < |cea| }

  /** sde_cea_db_offsets: where the collection ends, 127 standing in for 0, or an
      error when that is outside the block. */
  function CeaDbEnd(cea: seq<byte>): (r: Option<nat>)
    requires |cea| > 2
    ensures r.Some? ==> DBC_START <= r.value <= 127
  {
    var end: nat := if cea[2] == 0 then 127 else cea[2];
    if end < DBC_START || end > 127 then None else Some(end)
  }

  /** sde_for_each_cea_db: it leaves at the first block that does not end inside. */
  function ForEachDb(cea: seq<byte>, at: nat, end: nat, tag: nat): seq<Block>
    requires end <= |cea|
    decreases end - at
  {
    if at >= end || at + Len(cea[at]) >= end then [] else
      var rest := ForEachDb(cea, at + 1 + Len(cea[at]), end, tag);
      if Tag(cea[at]) == tag then [Block(at, Len(cea[at]))] + rest else rest
  }

  /** What that walk visits in an extension: nothing before revision 3. */
  function MacroBlocks(cea: seq<byte>, tag: nat): seq<Block>
    requires Extension(cea)
  {
    if cea[1] < 3 || CeaDbEnd(cea).None? then [] else ForEachDb(cea, DBC_START, CeaDbEnd(cea).value, tag)
  }

  /** sde_edid_find_block on an extension. */
  method FindTagged(cea: seq<byte>, tag: nat) returns (r: Option<Block>)
    requires Extension(cea)
    ensures r == if MacroBlocks(cea, tag) == [] then None else Some(MacroBlocks(cea, tag)[0])
  {
    if cea[1] < 3 { return None; }
    var end: nat := cea[2];
    if end == 0 { end := 127; }
    if end < 4 || end > 127 { return None; }
    var at := DBC_START;
    while at < end && at + Len(cea[at]) < end
      invariant at >= DBC_START && ForEachDb(cea, DBC_START, end, tag) == ForEachDb(cea, at, end, tag)
      decreases end - at
    {
      if Tag(cea[at]) == tag { return Some(Block(at, Len(cea[at]))); }
      at := at + Len(cea[at]) + 1;
    }
    return None;
  }

  /** The last block of the collection has the tag and runs one byte past the end. */
  predicate OneByteOver(cea: seq<byte>, at: nat, end: nat, tag: nat)
    requires end <= |cea|
    decreases end - at
  {
    at < end &&
    if at + Len(cea[at]) < end then OneByteOver(cea, at + 1 + Len(cea[at]), end, tag)
    else at + Len(cea[at]) == end && Tag(cea[at]) == tag
  }

  /** Over the same bytes the two walks differ on exactly such a last block, which
      only the audio one takes. */
  lemma {:induction false} WalksOverlap(cea: seq<byte>, at: nat, tag: nat)
    requires Readable(cea)
    ensures var one, other := BlocksFrom(cea, at, tag), ForEachDb(cea, at, cea[2], tag);
      other <= one && |one| == |other| + if OneByteOver(cea, at, cea[2], tag) then 1 else 0
    decreases cea[2] - at
  {
    if at < cea[2] {
      var len := Len(cea[at]);
      if at + len < cea[2] {
        WalksOverlap(cea, at + 1 + len, tag);
      } else {
        assert BlocksFrom(cea, at + 1 + len, tag) == [];
      }
    }
  }

  /** On every extension: the two walks return the same blocks exactly when
      - its end is inside it and no last block of the kind runs one byte over, or
      - its end is given as 0 and the bytes up to 127 hold none of the kind, or
      - only the audio walk goes ahead (an old revision, an end past 127) and it
        finds none. An end of 1 to 3 is empty for both. */
  lemma WalksAgreeIff(cea: seq<byte>, tag: nat)
    requires Extension(cea)
    ensures BlocksFrom(cea, DBC_START, tag) == MacroBlocks(cea, tag) <==>
            if cea[1] < 3 || cea[2] > 127 then BlocksFrom(cea, DBC_START, tag) == []
            else if cea[2] == 0 then ForEachDb(cea, DBC_START, 127, tag) == []
            else !OneByteOver(cea, DBC_START, cea[2], tag)
  {
    WalksOverlap(cea, DBC_START, tag);
  }

  /** An audio header right after an end of 0: only the macro's walk sees it. */
  lemma ZeroEndDiffers(cea: seq<byte>)
    requires |cea| == 128 && cea[1] == 3 && cea[2] == 0 && cea[4] == 33
    ensures BlocksFrom(cea, DBC_START, AUDIO) == [] && MacroBlocks(cea, AUDIO) != []
    ensures MacroBlocks(cea, AUDIO)[0] == Block(4, 1)
  {
    assert Len(cea[4]) == 1 && Tag(cea[4]) == AUDIO;
  }

  /** struct sde_edid_ctrl, its audio part. */
  class EdidCtrl {
    const adb: array<byte>
    var size: nat

    ghost predicate Valid() reads this { adb.Length == CAPACITY }

    constructor ()
      ensures Valid() && fresh(adb)
    {
      adb := new byte[CAPACITY](_ => 0);
      size := 0;
    }

    method Append(p: seq<byte>)
      requires Valid() && size + |p| <= CAPACITY
      modifies adb, `size
      ensures size == old(size) + |p|
      ensures adb[..size] == old(adb[..size]) + p
      ensures forall i :: size <= i < CAPACITY ==> adb[i] == old(adb[i])
    {
      forall k | 0 <= k < |p| { adb[size + k] := p[k]; }
      size := size + |p|;
    }

    /** _sde_edid_extract_audio_data_blocks; cea is None when there is no extension. A
        round that changes nothing and does not end the loop is reported as jammed,
        where the driver would go on for ever. */
    method ExtractAudio(cea: Option<seq<byte>>) returns (jammed: bool)
      requires Valid() && (cea.Some? ==> Readable(cea.value))
      modifies adb, `size
      ensures cea.None? ==> !jammed && size == old(size) && adb[..] == old(adb[..])
      ensures cea.Some? ==> jammed == Jams(cea.value) && size <= CAPACITY
      ensures cea.Some? ==> adb[..size] == AudioData(cea.value) && forall k :: size <= k < CAPACITY ==> adb[k] == 0
    {
      if cea.None? { return false; }
      size := 0;
      forall k | 0 <= k < CAPACITY { adb[k] := 0; }
      jammed := Collect(cea.value);
    }

    /** The buffer after `taken` blocks of bs. */
    ghost predicate Collected(c: seq<byte>, bs: seq<Block>, taken: nat)
      reads this, adb
    {
      && Valid() && size <= CAPACITY && taken <= FirstRefused(bs, 0)
      && adb[..size] == Payloads(c, bs[..taken]) && forall i :: size <= i < CAPACITY ==> adb[i] == 0
    }

    /** The do-while loop. */
    method Collect(c: seq<byte>) returns (jammed: bool)
      requires Valid() && Readable(c) && size == 0 && forall i :: 0 <= i < CAPACITY ==> adb[i] == 0
      modifies adb, `size
      ensures size <= CAPACITY && adb[..size] == AudioData(c) && jammed == Jams(c)
      ensures forall i :: size <= i < CAPACITY ==> adb[i] == 0
    {
      ghost var bs := AudioBlocks(c);
      Beginning(c, bs);
      var taken: nat := 0;
      var b := Search(c, DBC_START, bs, taken);
      while b.Some? && !Refused(b.value, taken)
        invariant Collected(c, bs, taken) && Facing(c, bs, taken, b)
        decreases FirstRefused(bs, 0) - taken
      {
        b := Step(c, b.value, bs, taken);
        taken := taken + 1;
      }
      Ending(c, bs, taken);
      return b.Some? && size > 0;
    }

    /** b was found where the blocks of bs after `taken` begin. */
    ghost predicate Facing(c: seq<byte>, bs: seq<Block>, taken: nat, b: Option<Block>)
      requires Readable(c)
    {
      if b.None? then taken == |bs|
      else && taken < |bs| && b.value == bs[taken] && b.value.at >= DBC_START
           && BlocksFrom(c, b.value.at + 1 + b.value.len, AUDIO) == bs[taken + 1..]
    }

    /** A round that takes block b, and the search that opens the next one. */
    method Step(c: seq<byte>, b: Block, ghost bs: seq<Block>, ghost taken: nat) returns (b': Option<Block>)
      requires Readable(c) && Collected(c, bs, taken) && Facing(c, bs, taken, Some(b)) && !Refused(b, taken)
      modifies adb, `size
      ensures taken < FirstRefused(bs, 0) && Collected(c, bs, taken + 1) && Facing(c, bs, taken + 1, b')
    {
      Take(c, b, bs, taken);
      b' := Search(c, b.at + 1 + b.len, bs, taken + 1);
    }

    lemma Beginning(c: seq<byte>, bs: seq<Block>)
      requires Valid() && size == 0 && forall i :: 0 <= i < CAPACITY ==> adb[i] == 0
      ensures Collected(c, bs, 0) && bs[0..] == bs
    {
      assert bs[..0] == [] && adb[..0] == [];
    }

    lemma Ending(c: seq<byte>, bs: seq<Block>, taken: nat)
      requires Collected(c, bs, taken) && (taken == |bs| || Refused(bs[taken], taken))
      ensures adb[..size] == Collects(c, bs) && (JamsOn(c, bs) <==> taken < |bs| && size > 0)
    {
      assert taken == FirstRefused(bs, 0) && |adb[..size]| == size;
    }

    /** The next search, in terms of the list of all blocks. */
    method Search(c: seq<byte>, at: nat, ghost bs: seq<Block>, ghost taken: nat) returns (b: Option<Block>)
      requires Readable(c) && at >= DBC_START && taken <= |bs| && BlocksFrom(c, at, AUDIO) == bs[taken..]
      ensures Facing(c, bs, taken, b)
    {
      b := FindBlock(c, at, AUDIO);
      if b.Some? { TailStep(bs, taken); }
    }

    method Take(c: seq<byte>, b: Block, ghost bs: seq<Block>, ghost taken: nat)
      requires Collected(c, bs, taken) && taken < |bs| && b == bs[taken] && !Refused(b, taken)
      modifies adb, `size
      ensures Collected(c, bs, taken + 1)
    {
      RoomForNext(c, bs, taken);
      var p := Payload(c, b);
      Append(p);
    }
  }
}
