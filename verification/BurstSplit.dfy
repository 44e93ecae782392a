/** How a network interface splits a burst into flits (`enqueue_router_req`,
    pulp/floonoc_v2/floonoc_network_interface_v2.cpp). Addresses and sizes do not wrap around. */
module BurstSplit {
  import opened Wrappers

  datatype Entry = Entry(base: int, size: int, removeOffset: int, node: int) {
    predicate Has(a: int) { size > 0 && base <= a < base + size }
  }

  /** `get_entry`: the first entry that has the address. */
  function Find(mem: seq<Entry>, a: int): (e: Option<Entry>)
    ensures e.Some? ==> e.value in mem && e.value.Has(a)
    ensures e.None? ==> forall k :: 0 <= k < |mem| ==> !mem[k].Has(a)
  {
    if mem == [] then None
    else if mem[0].Has(a) then Some(mem[0])
    else Find(mem[1..], a)
  }

  ghost predicate Disjoint(mem: seq<Entry>) {
    forall e, f, a :: e in mem && f in mem && e.Has(a) && f.Has(a) ==> e == f
  }

  datatype Op = Read | Write | Atomic

  /** A burst, or one beat of a write burst, from the initiator. */
  datatype Beat = Beat(addr: int, size: int, op: Op, burstId: int, isFirst: bool, isLast: bool) {
    /** A write burst with an id is one packet over all its beats. */
    predicate InPacket() { op.Write? && burstId >= 0 }
  }

  /** `addr` is what the target sees, `initiatorAddr` what the initiator asked for. */
  datatype ReqFlit = ReqFlit(addr: int, initiatorAddr: int, size: int, dest: int, isAddress: bool,
                             isFirst: bool, isLast: bool, ownsBeat: bool, silent: bool)

  function Min(a: int, b: int): int { if a < b then a else b }

  function FlitSize(width: int, isAddress: bool, e: Entry, base: int, size: int): int {
    Min(e.base + e.size - base, if isAddress then size else Min(width, size))
  }

  function MakeFlit(beat: Beat, isAddress: bool, e: Entry, prev: Option<int>, base: int, left: int, size: int): ReqFlit {
    var ends := left <= size;
    var owns := !isAddress && beat.op.Write? && size == beat.size;
    ReqFlit(base - e.removeOffset, base, size, e.node, isAddress,
            if beat.InPacket() then isAddress else prev != Some(e.node),
            if beat.InPacket() then !isAddress && ends && beat.isLast else ends || base + size >= e.base + e.size,
            owns, owns && beat.burstId >= 0 && !beat.isLast)
  }

  /** The flits of the `left` bytes from `base` on; nothing from the first unmapped address on. */
  function Split(mem: seq<Entry>, width: int, beat: Beat, isAddress: bool, prev: Option<int>, base: int, left: int): seq<ReqFlit>
    requires width > 0
    decreases left
  {
    var e := Find(mem, base);
    if left <= 0 || e.None? then []
    else
      var size := FlitSize(width, isAddress, e.value, base, left);
      [MakeFlit(beat, isAddress, e.value, prev, base, left, size)]
      + Split(mem, width, beat, isAddress, Some(e.value.node), base + size, left - size)
  }

  function SplitBeat(mem: seq<Entry>, width: int, beat: Beat, isAddress: bool): seq<ReqFlit>
    requires width > 0
  {
    Split(mem, width, beat, isAddress, None, beat.addr, beat.size)
  }

  lemma SplitStep(mem: seq<Entry>, width: int, beat: Beat, isAddress: bool, prev: Option<int>, base: int, left: int,
                  e: Entry, before: seq<ReqFlit>, flit: ReqFlit)
    requires width > 0 && left > 0 && Find(mem, base) == Some(e)
    requires flit == MakeFlit(beat, isAddress, e, prev, base, left, FlitSize(width, isAddress, e, base, left))
    ensures before + Split(mem, width, beat, isAddress, prev, base, left)
      == before + [flit] + Split(mem, width, beat, isAddress, Some(e.node), base + flit.size, left - flit.size)
  {
  }

  /** One flit of `enqueue_router_req`. */
  method NextFlit(beat: Beat, isAddress: bool, e: Entry, prev: Option<int>, base: int, left: int, size: int)
    returns (flit: ReqFlit)
    ensures flit == MakeFlit(beat, isAddress, e, prev, base, left, size)
  {
    var owns := !isAddress && beat.op == Write && size == beat.size;
    var silent := owns && beat.burstId >= 0 && !beat.isLast;
    var isFirst := prev != Some(e.node);
    var isLast := left <= size || base + size >= e.base + e.size;
    if beat.op == Write && beat.burstId >= 0 {
      isFirst := isAddress;
      isLast := !isAddress && left <= size && beat.isLast;
    }
    return ReqFlit(base - e.removeOffset, base, size, e.node, isAddress, isFirst, isLast, owns, silent);
  }

  /** `enqueue_router_req`; the flits it pushes, in order, and the bytes of silent beats it counts as
      acknowledged. */
  method EnqueueRouterReq(mem: seq<Entry>, width: int, beat: Beat, isAddress: bool)
    returns (flits: seq<ReqFlit>, silentBytes: int)
    requires width > 0
    ensures flits == SplitBeat(mem, width, beat, isAddress)
    ensures silentBytes == SilentBytes(flits)
  {
    var base, left := beat.addr, beat.size;
    var prev := None;
    flits, silentBytes := [], 0;
    while left > 0
      invariant flits + Split(mem, width, beat, isAddress, prev, base, left) == SplitBeat(mem, width, beat, isAddress)
      invariant silentBytes == SilentBytes(flits)
      decreases left
    {
      var entry := Find(mem, base);
      if entry.None? {
        return;
      }
      var e := entry.value;
      var size := Min(e.base + e.size - base, if isAddress then left else Min(width, left));
      var flit := NextFlit(beat, isAddress, e, prev, base, left, size);
      if flit.silent {
        silentBytes := silentBytes + size;
      }
      SplitStep(mem, width, beat, isAddress, prev, base, left, e, flits, flit);
      SilentAppend(flits, flit);
      flits := flits + [flit];
      prev, base, left := Some(e.node), base + size, left - size;
    }
  }

  function SilentBytes(flits: seq<ReqFlit>): int {
    if flits == [] then 0
    else SilentBytes(flits[..|flits| - 1]) + if flits[|flits| - 1].silent then flits[|flits| - 1].size else 0
  }

  lemma SilentAppend(flits: seq<ReqFlit>, flit: ReqFlit)
    ensures SilentBytes(flits + [flit]) == SilentBytes(flits) + if flit.silent then flit.size else 0
  {
    assert (flits + [flit])[..|flits|] == flits;
  }

  /** The flits cover `from..to` in order, without gap or overlap. */
  predicate Tiles(flits: seq<ReqFlit>, from: int, to: int) {
    if flits == [] then from == to
    else flits[0].initiatorAddr == from && flits[0].size > 0 && Tiles(flits[1..], from + flits[0].size, to)
  }

  /** The flit lies in one entry and goes to that entry's node, at the entry's offset. */
  ghost predicate Placed(mem: seq<Entry>, width: int, f: ReqFlit) {
    exists e :: e in mem && PlacedIn(e, width, f)
  }

  predicate PlacedIn(e: Entry, width: int, f: ReqFlit) {
    && e.base <= f.initiatorAddr && f.initiatorAddr + f.size <= e.base + e.size
    && f.addr == f.initiatorAddr - e.removeOffset && f.dest == e.node
    && (!f.isAddress ==> f.size <= width)
  }

  /** The flits cover all bytes up to the first unmapped one. */
  lemma {:induction false} SplitCovers(mem: seq<Entry>, width: int, beat: Beat, isAddress: bool, prev: Option<int>, base: int, left: int)
    returns (to: int)
    requires width > 0 && left >= 0
    ensures
      var flits := Split(mem, width, beat, isAddress, prev, base, left);
      && base <= to <= base + left && Tiles(flits, base, to)
      && (forall a :: base <= a < to ==> Find(mem, a).Some?)
      && (to < base + left ==> Find(mem, to).None?)
    decreases left
  {
    var e := Find(mem, base);
    to := base;
    if left > 0 && e.Some? {
      var size := FlitSize(width, isAddress, e.value, base, left);
      to := SplitCovers(mem, width, beat, isAddress, Some(e.value.node), base + size, left - size);
      forall a | base <= a < base + size ensures Find(mem, a).Some? {
        assert e.value.Has(a);
      }
    }
  }

  /** A burst is sent whole if and only if every byte of it is mapped. */
  lemma SplitIsWhole(mem: seq<Entry>, width: int, beat: Beat, isAddress: bool)
    requires width > 0 && beat.size >= 0
    ensures Tiles(SplitBeat(mem, width, beat, isAddress), beat.addr, beat.addr + beat.size)
      <==> forall a :: beat.addr <= a < beat.addr + beat.size ==> Find(mem, a).Some?
  {
    var to := SplitCovers(mem, width, beat, isAddress, None, beat.addr, beat.size);
    TilesEnd(SplitBeat(mem, width, beat, isAddress), beat.addr, to, beat.addr + beat.size);
    assert to < beat.addr + beat.size ==> Find(mem, to).None?;
  }

  lemma {:induction false} TilesEnd(flits: seq<ReqFlit>, from: int, to: int, other: int)
    requires Tiles(flits, from, to)
    ensures Tiles(flits, from, other) <==> other == to
    decreases |flits|
  {
    if flits != [] {
      TilesEnd(flits[1..], from + flits[0].size, to, other);
    }
  }

  lemma {:induction false} SplitIsPlaced(mem: seq<Entry>, width: int, beat: Beat, isAddress: bool, prev: Option<int>,
                                         base: int, left: int, k: nat)
    requires width > 0 && k < |Split(mem, width, beat, isAddress, prev, base, left)|
    ensures Placed(mem, width, Split(mem, width, beat, isAddress, prev, base, left)[k])
    decreases left
  {
    var e := Find(mem, base).value;
    var size := FlitSize(width, isAddress, e, base, left);
    if k == 0 {
      assert PlacedIn(e, width, MakeFlit(beat, isAddress, e, prev, base, left, size));
    } else {
      SplitIsPlaced(mem, width, beat, isAddress, Some(e.node), base + size, left - size, k - 1);
    }
  }

  /** Packets of one burst: a packet goes on to one destination until its last flit, and no packet is
      left open. */
  lemma {:induction false} RunsHaveOneDestination(mem: seq<Entry>, width: int, beat: Beat, isAddress: bool, prev: Option<int>,
                                                  base: int, left: int, k: nat)
    requires width > 0 && Disjoint(mem) && !beat.InPacket()
    requires k < |Split(mem, width, beat, isAddress, prev, base, left)|
    ensures
      var flits := Split(mem, width, beat, isAddress, prev, base, left);
      !flits[k].isLast ==> k + 1 < |flits| && flits[k + 1].dest == flits[k].dest
    decreases left
  {
    var e := Find(mem, base).value;
    var size := FlitSize(width, isAddress, e, base, left);
    if k > 0 {
      RunsHaveOneDestination(mem, width, beat, isAddress, Some(e.node), base + size, left - size, k - 1);
    }
  }

  /** Outside packets, a flit is marked first exactly when its node is not that of the flit before it;
      between two entries of one node, a tail is therefore not followed by a first flit. */
  lemma {:induction false} FirstMarksNewNode(mem: seq<Entry>, width: int, beat: Beat, isAddress: bool, prev: Option<int>,
                                             base: int, left: int, k: nat)
    requires width > 0 && !beat.InPacket() && k < |Split(mem, width, beat, isAddress, prev, base, left)|
    ensures
      var flits := Split(mem, width, beat, isAddress, prev, base, left);
      flits[k].isFirst <==> (if k == 0 then prev else Some(flits[k - 1].dest)) != Some(flits[k].dest)
    decreases left
  {
    var e := Find(mem, base).value;
    var size := FlitSize(width, isAddress, e, base, left);
    if k > 0 {
      FirstMarksNewNode(mem, width, beat, isAddress, Some(e.node), base + size, left - size, k - 1);
    }
  }

  /** A beat that fits the link and one entry travels whole: the flit owns it, and it is silent unless
      it ends its burst. */
  lemma WholeBeatIsOneFlit(mem: seq<Entry>, width: int, beat: Beat, e: Entry)
    requires width > 0 && Disjoint(mem) && beat.op.Write? && 0 < beat.size <= width
    requires e in mem && e.Has(beat.addr) && beat.addr + beat.size <= e.base + e.size
    ensures
      var flits := SplitBeat(mem, width, beat, false);
      && |flits| == 1 && flits[0].size == beat.size && flits[0].ownsBeat && flits[0].dest == e.node
      && (flits[0].silent <==> beat.burstId >= 0 && !beat.isLast)
  {
    assert Split(mem, width, beat, false, Some(e.node), beat.addr + beat.size, 0) == [];
  }

  /** The address of a beat that lies in one entry is one flit, whatever the width of the link. */
  lemma AddressIsOneFlit(mem: seq<Entry>, width: int, beat: Beat, e: Entry)
    requires width > 0 && Disjoint(mem) && 0 < beat.size
    requires e in mem && e.Has(beat.addr) && beat.addr + beat.size <= e.base + e.size
    ensures
      var flits := SplitBeat(mem, width, beat, true);
      && |flits| == 1 && flits[0].isAddress && flits[0].size == beat.size && flits[0].dest == e.node
      && !flits[0].ownsBeat && !flits[0].silent
  {
    assert Split(mem, width, beat, true, Some(e.node), beat.addr + beat.size, 0) == [];
  }

  /** The flit ends with the beat, with its entry, or, for data, because the link is full. */
  predicate CutBy(e: Entry, width: int, to: int, f: ReqFlit) {
    var end := f.initiatorAddr + f.size;
    end == to || end == e.base + e.size || (!f.isAddress && f.size == width)
  }

  /** No flit is smaller than it has to be. */
  lemma {:induction false} SplitIsGreedy(mem: seq<Entry>, width: int, beat: Beat, isAddress: bool, prev: Option<int>,
                                         base: int, left: int, k: nat)
    requires width > 0 && k < |Split(mem, width, beat, isAddress, prev, base, left)|
    ensures
      var f := Split(mem, width, beat, isAddress, prev, base, left)[k];
      f.isAddress == isAddress && exists e :: e in mem && e.Has(f.initiatorAddr) && CutBy(e, width, base + left, f)
    decreases left
  {
    var e := Find(mem, base).value;
    var size := FlitSize(width, isAddress, e, base, left);
    if k > 0 {
      SplitIsGreedy(mem, width, beat, isAddress, Some(e.node), base + size, left - size, k - 1);
    } else {
      assert e in mem && CutBy(e, width, base + left, MakeFlit(beat, isAddress, e, prev, base, left, size));
    }
  }

  /** A flit owns its beat exactly if it carries all of it: a beat that is split has no owner. */
  lemma {:induction false} OwnerCarriesBeat(mem: seq<Entry>, width: int, beat: Beat, isAddress: bool, prev: Option<int>,
                                            base: int, left: int, k: nat)
    requires width > 0 && left <= beat.size && k < |Split(mem, width, beat, isAddress, prev, base, left)|
    ensures
      var flits := Split(mem, width, beat, isAddress, prev, base, left);
      && (flits[k].ownsBeat <==> !isAddress && beat.op.Write? && |flits| == 1 && flits[0].size == beat.size)
      && (flits[k].silent <==> flits[k].ownsBeat && beat.burstId >= 0 && !beat.isLast)
    decreases left
  {
    var e := Find(mem, base).value;
    var size := FlitSize(width, isAddress, e, base, left);
    if k > 0 {
      OwnerCarriesBeat(mem, width, beat, isAddress, Some(e.node), base + size, left - size, k - 1);
    }
  }

  /** The beats of a write burst with an id, in one entry: consecutive, only the first one opens it and
      only the last one ends it. */
  predicate IsWriteBurst(beats: seq<Beat>, e: Entry) {
    && beats != []
    && forall k :: 0 <= k < |beats| ==>
      && beats[k].InPacket() && beats[k].size > 0 && (beats[k].isFirst <==> k == 0)
      && (beats[k].isLast <==> k == |beats| - 1)
      && e.Has(beats[k].addr) && beats[k].addr + beats[k].size <= e.base + e.size
      && (k > 0 ==> beats[k].addr == beats[k - 1].addr + beats[k - 1].size)
  }

  /** What `handle_req` enqueues for one write beat: the address with the first beat only. */
  function WriteFlits(mem: seq<Entry>, width: int, beat: Beat): seq<ReqFlit>
    requires width > 0
  {
    (if beat.isFirst then SplitBeat(mem, width, beat, true) else []) + SplitBeat(mem, width, beat, false)
  }

  function PacketOf(mem: seq<Entry>, width: int, beats: seq<Beat>): seq<ReqFlit>
    requires width > 0
  {
    if beats == [] then []
    else PacketOf(mem, width, beats[..|beats| - 1]) + WriteFlits(mem, width, beats[|beats| - 1])
  }

  /** Flits of one packet: all to one node, and the last flit at most is a tail. */
  predicate OnePacket(flits: seq<ReqFlit>, node: int, closed: bool) {
    && forall k :: 0 <= k < |flits| ==> flits[k].dest == node && (flits[k].isLast <==> closed && k == |flits| - 1)
  }

  lemma {:induction false} DataInEntry(mem: seq<Entry>, width: int, beat: Beat, isAddress: bool, prev: Option<int>,
                                       base: int, left: int, e: Entry)
    requires width > 0 && Disjoint(mem) && e in mem && beat.InPacket() && left > 0
    requires e.Has(base) && base + left <= e.base + e.size
    ensures Split(mem, width, beat, isAddress, prev, base, left) != []
    ensures OnePacket(Split(mem, width, beat, isAddress, prev, base, left), e.node, !isAddress && beat.isLast)
    decreases left
  {
    var size := FlitSize(width, isAddress, e, base, left);
    if size < left {
      DataInEntry(mem, width, beat, isAddress, Some(e.node), base + size, left - size, e);
    }
  }

  /** A write burst with an id is one packet, from its address to the last flit of its last beat. */
  lemma {:induction false} BurstIsOnePacket(mem: seq<Entry>, width: int, beats: seq<Beat>, n: nat, e: Entry)
    requires width > 0 && Disjoint(mem) && e in mem && IsWriteBurst(beats, e) && n <= |beats|
    ensures OnePacket(PacketOf(mem, width, beats[..n]), e.node, n == |beats|)
    ensures n > 0 ==> PacketOf(mem, width, beats[..n]) != []
    decreases n
  {
    if n > 0 {
      BurstIsOnePacket(mem, width, beats, n - 1, e);
      assert beats[..n][..n - 1] == beats[..n - 1];
      var beat := beats[n - 1];
      DataInEntry(mem, width, beat, false, None, beat.addr, beat.size, e);
      DataInEntry(mem, width, beat, true, None, beat.addr, beat.size, e);
    }
  }
}
