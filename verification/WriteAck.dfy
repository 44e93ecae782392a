/** Write acknowledgement of one port of a network interface
    (pulp/floonoc_v2/floonoc_network_interface_v2.cpp): the beats of a write burst travel as silent flits,
    all but the last one, and the burst gets a single acknowledgement. Beats fit one flit each, and the
    target answers in the order of submission. */
module WriteAck {
  import opened Wrappers

  /** A write beat that travels in one flit; `dest` is the node its address maps to. */
  datatype WBeat = WBeat(id: int, addr: int, size: int, initiator: int, isFirst: bool, isLast: bool, dest: int) {
    predicate Lone() { id == -1 }

    predicate Silent() { id >= 0 && !isLast }
  }

  /** The B flit of a beat: the beat's fields, the size it acknowledges, and the status. */
  datatype BFlit = BFlit(beat: WBeat, size: int, error: bool)

  datatype Ack = Ack(base: int, size: int, id: int, initiator: int, error: bool)

  /** `WrTrack` */
  datatype Track = Track(issued: int, acked: int, seenLast: bool, error: bool, initiator: int, base: int)

  /** `wr_bursts`, and the write share of `nb_pending_bursts`, `id_txns` and `id_dest`. */
  datatype Source = Source(tracks: map<int, Track>, pending: int, idTxns: int, idDest: int)

  /** What the protocol asks of the initiator of a beat. */
  predicate Legal(s: Source, b: WBeat) {
    && b.size > 0 && b.id >= -1
    && (b.Lone() ==> b.isFirst && b.isLast)
    && (b.id >= 0 && b.isFirst ==> b.id !in s.tracks)
    && (!b.isFirst ==> b.id in s.tracks && !s.tracks[b.id].seenLast
                       && s.tracks[b.id].initiator == b.initiator && b.dest == s.idDest)
  }

  /** Bursts are only in flight to one destination at a time. */
  predicate FreeFor(s: Source, dest: int) { s.idTxns <= 0 || s.idDest == dest }

  predicate Admitted(s: Source, b: WBeat, limit: int, readBursts: int, room: bool) {
    room && (b.isFirst ==> s.pending + readBursts < limit && FreeFor(s, b.dest))
  }

  /** `track` after a beat, silent beats being acknowledged when issued. */
  function TrackBeat(t: Track, b: WBeat): Track {
    t.(issued := t.issued + b.size, seenLast := t.seenLast || b.isLast,
       acked := if b.Silent() then t.acked + b.size else t.acked)
  }

  function Issue(s: Source, b: WBeat): Source
    requires Legal(s, b)
  {
    var s' := if b.isFirst then s.(pending := s.pending + 1, idTxns := s.idTxns + 1, idDest := b.dest) else s;
    if b.Lone() then s'
    else
      var t := if b.isFirst then Track(0, 0, false, false, b.initiator, b.addr) else s.tracks[b.id];
      s'.(tracks := s.tracks[b.id := TrackBeat(t, b)])
  }

  /** Destination side, `handle_response`: no B flit for a silent beat, unless the target rejected it. */
  function Answer(b: WBeat, error: bool): Option<BFlit> {
    if b.Silent() then if error then Some(BFlit(b, 0, true)) else None
    else Some(BFlit(b, b.size, error))
  }

  function TrackB(t: Track, b: BFlit): Track {
    t.(acked := t.acked + b.size, error := t.error || b.error)
  }

  function Deliver(s: Source, b: BFlit): (r: (Source, Option<Ack>))
    requires b.beat.Lone() || b.beat.id in s.tracks
  {
    var done := s.(pending := s.pending - 1, idTxns := if s.idTxns > 0 then s.idTxns - 1 else s.idTxns);
    if b.beat.Lone() then (done, Some(Ack(b.beat.addr, b.size, -1, b.beat.initiator, b.error)))
    else
      var t := TrackB(s.tracks[b.beat.id], b);
      if t.seenLast && t.acked == t.issued
      then (done.(tracks := s.tracks - {b.beat.id}), Some(Ack(t.base, t.issued, b.beat.id, t.initiator, t.error)))
      else (s.(tracks := s.tracks[b.beat.id := t]), None)
  }

  /** The initiator side of one port. */
  class WritePort {
    const outstanding: int
    var wrBursts: map<int, Track>
    var nbPending: int
    var idTxns: int
    var idDest: int

    function View(): Source
      reads this
    {
      Source(wrBursts, nbPending, idTxns, idDest)
    }

    constructor (outstanding: int)
      ensures View() == Source(map[], 0, 0, -1) && this.outstanding == outstanding
    {
      this.outstanding := outstanding;
      wrBursts, nbPending, idTxns, idDest := map[], 0, 0, -1;
    }

    /** `handle_req` for a write beat; `readBursts` bursts share the limit, `room` is the state of the queue. */
    method HandleReq(b: WBeat, readBursts: int, room: bool) returns (granted: bool)
      requires Legal(View(), b)
      modifies this
      ensures granted <==>
        room && (b.isFirst ==> old(nbPending) + readBursts < outstanding && (old(idTxns) <= 0 || old(idDest) == b.dest))
      ensures granted <==> Admitted(old(View()), b, outstanding, readBursts, room)
      ensures View() == if granted then Issue(old(View()), b) else old(View())
    {
      var continuation := !b.isFirst;
      if !continuation && nbPending + readBursts >= outstanding {
        return false;
      }
      if !continuation && idTxns > 0 && idDest != b.dest {
        return false;
      }
      if !room {
        return false;
      }
      if !continuation {
        nbPending := nbPending + 1;
        idTxns := idTxns + 1;
        idDest := b.dest;
      }
      if !(b.isFirst && b.isLast && b.id == -1) {
        var t := if b.isFirst then Track(0, 0, false, false, b.initiator, b.addr) else wrBursts[b.id];
        t := t.(issued := t.issued + b.size, seenLast := t.seenLast || b.isLast);
        if b.id >= 0 && !b.isLast {
          t := t.(acked := t.acked + b.size);
        }
        wrBursts := wrBursts[b.id := t];
      }
      return true;
    }

    /** `link_req` for a B flit. */
    method LinkB(b: BFlit) returns (ack: Option<Ack>)
      requires b.beat.Lone() || b.beat.id in wrBursts
      modifies this
      ensures (View(), ack) == Deliver(old(View()), b)
    {
      ack := None;
      if b.beat.id == -1 {
        ack := Some(Ack(b.beat.addr, b.size, -1, b.beat.initiator, b.error));
      } else {
        var t := wrBursts[b.beat.id];
        t := t.(acked := t.acked + b.size, error := t.error || b.error);
        if t.seenLast && t.acked == t.issued {
          ack := Some(Ack(t.base, t.issued, b.beat.id, t.initiator, t.error));
          wrBursts := wrBursts - {b.beat.id};
        } else {
          wrBursts := wrBursts[b.beat.id := t];
        }
      }
      if ack.Some? {
        nbPending := nbPending - 1;
        if idTxns > 0 {
          idTxns := idTxns - 1;
        }
      }
    }
  }

  /** A burst: its beats issued so far, and the target's answers to them, in order. */
  datatype Burst = Burst(beats: seq<WBeat>, answers: seq<bool>)

  function TotalSize(beats: seq<WBeat>): int {
    if beats == [] then 0 else TotalSize(beats[..|beats| - 1]) + beats[|beats| - 1].size
  }

  /** The one acknowledgement a burst must get: all its bytes, and every error of its beats. */
  ghost function AckOf(u: Burst): Ack
    requires u.beats != []
  {
    Ack(u.beats[0].addr, TotalSize(u.beats), u.beats[0].id, u.beats[0].initiator, true in u.answers)
  }

  ghost predicate Complete(u: Burst) {
    u.beats != [] && u.beats[|u.beats| - 1].isLast && |u.answers| == |u.beats|
  }

  ghost predicate Beats(beats: seq<WBeat>, id: int, dest: int) {
    && beats != [] && beats[0].isFirst
    && forall k :: 0 <= k < |beats| ==>
         && beats[k].id == id && beats[k].size > 0 && beats[k].dest == dest
         && (beats[k].isLast ==> k == |beats| - 1)
  }

  ghost predicate RejectsOnly(bs: seq<BFlit>, n: int) {
    forall k :: 0 <= k < n && k < |bs| ==> bs[k].size == 0 && bs[k].error
  }

  ghost predicate HasError(bs: seq<BFlit>) {
    exists k :: 0 <= k < |bs| && bs[k].error
  }

  /** A tracked burst `u`: `ws` are its beats on the way to the target, `bs` its B flits on the way back. */
  ghost predicate Tracked(t: Track, u: Burst, ws: seq<WBeat>, bs: seq<BFlit>, id: int, dest: int) {
    && Beats(u.beats, id, dest) && |u.answers| <= |u.beats| && ws == u.beats[|u.answers|..]
    && TracksBeats(t, u.beats)
    && (true in u.answers <==> t.error || HasError(bs))
    && if Complete(u) then
         && bs != [] && RejectsOnly(bs, |bs| - 1)
         && bs[|bs| - 1].size == u.beats[|u.beats| - 1].size
       else RejectsOnly(bs, |bs|)
  }

  ghost predicate TracksBeats(t: Track, beats: seq<WBeat>)
    requires beats != []
  {
    var last := beats[|beats| - 1];
    && t.issued == TotalSize(beats) && t.seenLast == last.isLast
    && t.acked == t.issued - (if last.isLast then last.size else 0)
    && t.base == beats[0].addr && t.initiator == beats[0].initiator
  }

  function OfId(ws: seq<WBeat>, id: int): seq<WBeat> {
    if ws == [] then [] else (if ws[0].id == id then [ws[0]] else []) + OfId(ws[1..], id)
  }

  function BackOf(bs: seq<BFlit>, id: int): seq<BFlit> {
    if bs == [] then [] else (if bs[0].beat.id == id then [bs[0]] else []) + BackOf(bs[1..], id)
  }

  lemma {:induction false} OfIdAppend(ws: seq<WBeat>, b: WBeat, id: int)
    ensures OfId(ws + [b], id) == OfId(ws, id) + if b.id == id then [b] else []
    decreases |ws|
  {
    if ws != [] {
      OfIdAppend(ws[1..], b, id);
      assert (ws + [b])[1..] == ws[1..] + [b];
    }
  }

  lemma {:induction false} BackOfAppend(bs: seq<BFlit>, b: BFlit, id: int)
    ensures BackOf(bs + [b], id) == BackOf(bs, id) + if b.beat.id == id then [b] else []
    decreases |bs|
  {
    if bs != [] {
      BackOfAppend(bs[1..], b, id);
      assert (bs + [b])[1..] == bs[1..] + [b];
    }
  }

  /** The port with its read bursts, the way to the target and back, and, for the specification, the open
      and the closed bursts, the acknowledgements given, and the number of bursts begun. */
  datatype System = System(src: Source, readBursts: int, wire: seq<WBeat>, back: seq<BFlit>,
                           open: map<int, Burst>, closed: seq<Burst>, acks: seq<Ack>, begun: int)

  ghost predicate IdOk(y: System, id: int) {
    if id in y.open then
      id in y.src.tracks && Tracked(y.src.tracks[id], y.open[id], OfId(y.wire, id), BackOf(y.back, id), id, y.src.idDest)
    else id !in y.src.tracks && OfId(y.wire, id) == [] && BackOf(y.back, id) == []
  }

  ghost predicate LonesOk(y: System) {
    && (forall k :: 0 <= k < |y.wire| ==> y.wire[k].id >= -1 && y.wire[k].size > 0 && y.wire[k].dest == y.src.idDest)
    && (forall k :: 0 <= k < |y.wire| && y.wire[k].Lone() ==> y.wire[k].isFirst && y.wire[k].isLast)
    && (forall k :: 0 <= k < |y.back| ==> y.back[k].beat.id >= -1)
    && forall k :: 0 <= k < |y.back| && y.back[k].beat.Lone() ==> y.back[k].size == y.back[k].beat.size && y.back[k].beat.isLast
  }

  /** Closed bursts are complete, and acknowledged once each, in the order they closed. */
  ghost predicate AcksOk(y: System) {
    && |y.acks| == |y.closed|
    && forall k :: 0 <= k < |y.closed| ==> Complete(y.closed[k]) && y.acks[k] == AckOf(y.closed[k])
  }

  ghost predicate CountOk(y: System) {
    && y.src.pending == |y.open| + |OfId(y.wire, -1)| + |BackOf(y.back, -1)| && y.src.idTxns == y.src.pending
    && y.begun == |y.closed| + y.src.pending
  }

  ghost predicate Inv(y: System) {
    (forall id :: id >= 0 ==> IdOk(y, id)) && (forall id :: id in y.open ==> id >= 0) && LonesOk(y) && AcksOk(y) && CountOk(y)
  }

  /** An admitted beat enters the network. */
  function AfterIssue(y: System, b: WBeat): System
    requires Legal(y.src, b)
  {
    var u := if b.id in y.open && !b.isFirst then y.open[b.id] else Burst([], []);
    y.(src := Issue(y.src, b), wire := y.wire + [b],
       open := if b.Lone() then y.open else y.open[b.id := u.(beats := u.beats + [b])],
       begun := if b.isFirst then y.begun + 1 else y.begun)
  }

  /** The target answers the oldest beat. */
  function AfterAnswer(y: System, error: bool): System
    requires y.wire != []
  {
    var b := y.wire[0];
    var r := Answer(b, error);
    y.(wire := y.wire[1..], back := y.back + if r.Some? then [r.value] else [],
       open := if b.id in y.open then y.open[b.id := y.open[b.id].(answers := y.open[b.id].answers + [error])] else y.open)
  }

  /** The oldest B flit reaches the port. */
  function AfterDeliver(y: System): System
    requires y.back != [] && (y.back[0].beat.Lone() || y.back[0].beat.id in y.src.tracks)
  {
    var b := y.back[0];
    var (s, ack) := Deliver(y.src, b);
    var y' := y.(src := s, back := y.back[1..]);
    if ack.None? then y'
    else
      var u := if b.beat.id in y.open then y.open[b.beat.id] else Burst([b.beat], [b.error]);
      y'.(acks := y.acks + [ack.value], closed := y.closed + [u], open := y.open - {b.beat.id})
  }

  lemma TrackedIssue(t: Track, u: Burst, ws: seq<WBeat>, bs: seq<BFlit>, id: int, dest: int, b: WBeat)
    requires Tracked(t, u, ws, bs, id, dest) && !t.seenLast
    requires b.id == id >= 0 && b.dest == dest && b.size > 0 && b.initiator == t.initiator
    ensures Tracked(TrackBeat(t, b), u.(beats := u.beats + [b]), ws + [b], bs, id, dest)
  {
    var beats := u.beats + [b];
    assert beats[..|beats| - 1] == u.beats;
    assert beats[|u.answers|..] == u.beats[|u.answers|..] + [b];
  }

  lemma TrackedFirst(b: WBeat)
    requires b.id >= 0 && b.size > 0 && b.isFirst
    ensures Tracked(TrackBeat(Track(0, 0, false, false, b.initiator, b.addr), b), Burst([b], []), [b], [], b.id, b.dest)
  {
    assert [b][..0] == [];
    assert TotalSize([b]) == b.size;
  }

  lemma TrackedAnswer(t: Track, u: Burst, ws: seq<WBeat>, bs: seq<BFlit>, id: int, dest: int, error: bool)
    requires Tracked(t, u, ws, bs, id, dest) && ws != [] && id >= 0
    ensures
      var r := Answer(ws[0], error);
      Tracked(t, u.(answers := u.answers + [error]), ws[1..], bs + (if r.Some? then [r.value] else []), id, dest)
  {
    var r := Answer(ws[0], error);
    assert ws[0] == u.beats[|u.answers|];
    assert ws[1..] == u.beats[|u.answers| + 1..];
    if r.Some? {
      var bs' := bs + [r.value];
      assert HasError(bs') <==> HasError(bs) || r.value.error by {
        assert bs'[|bs|] == r.value;
        assert forall k :: 0 <= k < |bs| ==> bs'[k] == bs[k];
      }
    } else {
      assert bs + [] == bs;
    }
  }

  /** A B flit closes its burst if and only if it is that of the last beat; the acknowledgement is then
      the one the burst must get. */
  lemma TrackedDeliver(t: Track, u: Burst, ws: seq<WBeat>, bs: seq<BFlit>, id: int, dest: int)
    requires Tracked(t, u, ws, bs, id, dest) && bs != []
    ensures
      var t' := TrackB(t, bs[0]);
      if t'.seenLast && t'.acked == t'.issued then
        && Complete(u) && |bs| == 1 && ws == []
        && Ack(t'.base, t'.issued, id, t'.initiator, t'.error) == AckOf(u)
      else Tracked(t', u, ws, bs[1..], id, dest)
  {
    if |bs| == 1 {
      assert HasError(bs) <==> bs[0].error;
    } else {
      assert bs[0].size == 0 && bs[0].error;
    }
  }

  lemma WireIsOpen(y: System, k: int)
    requires Inv(y) && 0 <= k < |y.wire|
    ensures y.src.pending > 0
  {
    InOfId(y.wire, k);
    if y.wire[k].id >= 0 {
      assert IdOk(y, y.wire[k].id);
      assert y.wire[k].id in y.open;
    }
  }

  lemma OpenIsPending(y: System, id: int)
    requires Inv(y)
    ensures id in y.open ==> y.src.pending > 0
  {
    if id in y.open {
      assert |y.open| > 0;
    }
  }

  lemma {:induction false} InOfId(ws: seq<WBeat>, k: int)
    requires 0 <= k < |ws|
    ensures OfId(ws, ws[k].id) != []
    decreases k
  {
    if k > 0 {
      InOfId(ws[1..], k - 1);
    }
  }

  lemma IssueIdOk(y: System, b: WBeat, limit: int, room: bool, id: int)
    requires Inv(y) && Legal(y.src, b) && Admitted(y.src, b, limit, y.readBursts, room) && id >= 0
    ensures IdOk(AfterIssue(y, b), id)
  {
    OfIdAppend(y.wire, b, id);
    assert IdOk(y, id);
    if id == b.id {
      if b.isFirst {
        TrackedFirst(b);
      } else {
        TrackedIssue(y.src.tracks[id], y.open[id], OfId(y.wire, id), BackOf(y.back, id), id, y.src.idDest, b);
      }
    } else {
      OpenIsPending(y, id);
    }
  }

  /** Whatever is admitted keeps the system consistent, and the bursts in flight within the limit. */
  lemma IssueKeeps(y: System, b: WBeat, limit: int, room: bool)
    requires Inv(y) && WithinLimit(y, limit) && Legal(y.src, b) && Admitted(y.src, b, limit, y.readBursts, room)
    ensures room && Inv(AfterIssue(y, b)) && WithinLimit(AfterIssue(y, b), limit)
  {
    var z := AfterIssue(y, b);
    forall id | id >= 0 ensures IdOk(z, id) {
      IssueIdOk(y, b, limit, room, id);
    }
    OfIdAppend(y.wire, b, -1);
    if b.id >= 0 {
      assert IdOk(y, b.id);
    }
    if y.wire != [] {
      WireIsOpen(y, 0);
    }
  }

  lemma AnswerBack(y: System, error: bool, id: int)
    requires y.wire != []
    ensures
      var r := Answer(y.wire[0], error);
      BackOf(AfterAnswer(y, error).back, id)
        == BackOf(y.back, id) + if r.Some? && y.wire[0].id == id then [r.value] else []
  {
    var r := Answer(y.wire[0], error);
    if r.Some? {
      BackOfAppend(y.back, r.value, id);
    } else {
      assert y.back + [] == y.back;
    }
  }

  lemma AnswerIdOk(y: System, error: bool, id: int)
    requires Inv(y) && y.wire != [] && id >= 0
    ensures IdOk(AfterAnswer(y, error), id)
  {
    AnswerBack(y, error, id);
    assert IdOk(y, id);
    if id == y.wire[0].id {
      TrackedAnswer(y.src.tracks[id], y.open[id], OfId(y.wire, id), BackOf(y.back, id), id, y.src.idDest, error);
    } else {
      assert OfId(y.wire, id) == OfId(y.wire[1..], id);
      assert BackOf(AfterAnswer(y, error).back, id) == BackOf(y.back, id);
    }
  }

  lemma AnswerKeeps(y: System, error: bool)
    requires Inv(y) && y.wire != []
    ensures Inv(AfterAnswer(y, error))
  {
    var z := AfterAnswer(y, error);
    forall id | id >= 0 ensures IdOk(z, id) {
      AnswerIdOk(y, error, id);
    }
    AnswerBack(y, error, -1);
    if y.wire[0].id >= 0 {
      assert IdOk(y, y.wire[0].id);
    }
    assert z.open.Keys == y.open.Keys;
  }

  lemma DeliverIdOk(y: System, id: int)
    requires Inv(y) && y.back != [] && id >= 0
    ensures y.back[0].beat.Lone() || y.back[0].beat.id in y.src.tracks
    ensures IdOk(AfterDeliver(y), id)
  {
    var b := y.back[0];
    if b.beat.id >= 0 {
      assert IdOk(y, b.beat.id);
    }
    assert IdOk(y, id);
    if id == b.beat.id {
      TrackedDeliver(y.src.tracks[id], y.open[id], OfId(y.wire, id), BackOf(y.back, id), id, y.src.idDest);
      assert BackOf(y.back, id)[0] == b && BackOf(y.back, id)[1..] == BackOf(y.back[1..], id);
    } else {
      assert BackOf(y.back[1..], id) == BackOf(y.back, id);
    }
  }

  lemma DeliverAcks(y: System)
    requires Inv(y) && y.back != [] && (y.back[0].beat.Lone() || y.back[0].beat.id in y.src.tracks)
    ensures AcksOk(AfterDeliver(y)) && CountOk(AfterDeliver(y))
  {
    var b := y.back[0];
    var id := b.beat.id;
    if id >= 0 {
      assert IdOk(y, id);
      TrackedDeliver(y.src.tracks[id], y.open[id], OfId(y.wire, id), BackOf(y.back, id), id, y.src.idDest);
    } else {
      assert [b.beat][..0] == [];
      assert TotalSize([b.beat]) == b.size;
      assert y.open - {-1} == y.open;
    }
  }

  lemma DeliverKeeps(y: System)
    requires Inv(y) && y.back != []
    ensures y.back[0].beat.Lone() || y.back[0].beat.id in y.src.tracks
    ensures Inv(AfterDeliver(y))
  {
    DeliverIdOk(y, 0);
    forall id | id >= 0 ensures IdOk(AfterDeliver(y), id) {
      DeliverIdOk(y, id);
    }
    DeliverAcks(y);
  }

  /** Reads and writes share the limit of bursts in flight. */
  predicate WithinLimit(y: System, limit: int) { 0 <= y.readBursts && y.src.pending + y.readBursts <= limit }

  /** A beat is offered, while the queue has room or not; the target answers; a B flit comes back; a read
      burst is offered, or ends. */
  datatype Event = Offered(b: WBeat, room: bool) | Answered(error: bool) | Delivered | ReadOffered | ReadEnds

  ghost predicate Step(limit: int, y: System, e: Event, z: System) {
    match e
    case Offered(b, room) =>
      Legal(y.src, b) && z == if Admitted(y.src, b, limit, y.readBursts, room) then AfterIssue(y, b) else y
    case Answered(error) => y.wire != [] && z == AfterAnswer(y, error)
    case Delivered =>
      y.back != [] && (y.back[0].beat.Lone() || y.back[0].beat.id in y.src.tracks) && z == AfterDeliver(y)
    case ReadOffered => z == if y.src.pending + y.readBursts < limit then y.(readBursts := y.readBursts + 1) else y
    case ReadEnds => y.readBursts > 0 && z == y.(readBursts := y.readBursts - 1)
  }

  const START := System(Source(map[], 0, 0, -1), 0, [], [], map[], [], [], 0)

  ghost predicate StepAt(limit: int, ys: seq<System>, events: seq<Event>, k: int)
    requires 0 <= k < |events| && |ys| == |events| + 1
  {
    Step(limit, ys[k], events[k], ys[k + 1])
  }

  /** A change of the number of read bursts touches nothing else. */
  lemma ReadsKeep(y: System, n: int)
    requires Inv(y)
    ensures Inv(y.(readBursts := n))
  {
    forall id | id >= 0 ensures IdOk(y.(readBursts := n), id) {
      assert IdOk(y, id);
    }
  }

  lemma StepKeeps(limit: int, y: System, e: Event, z: System)
    requires Inv(y) && WithinLimit(y, limit) && Step(limit, y, e, z)
    ensures Inv(z) && WithinLimit(z, limit)
  {
    match e
    case Offered(b, room) =>
      if Admitted(y.src, b, limit, y.readBursts, room) {
        IssueKeeps(y, b, limit, room);
      }
    case Answered(error) => AnswerKeeps(y, error);
    case Delivered => DeliverKeeps(y);
    case ReadOffered => ReadsKeep(y, y.readBursts + 1);
    case ReadEnds => ReadsKeep(y, y.readBursts - 1);
  }

  /** In every run of offered beats, of which only the admitted ones enter the network, the invariant
      holds, and bursts in flight never exceed the limit; in particular no B flit ever comes for an
      untracked burst. */
  lemma {:induction false} AllRunsKeepInv(limit: nat, ys: seq<System>, events: seq<Event>, k: nat)
    requires |ys| == |events| + 1 && ys[0] == START && k < |ys|
    requires forall j :: 0 <= j < |events| ==> StepAt(limit, ys, events, j)
    ensures Inv(ys[k]) && WithinLimit(ys[k], limit)
    ensures ys[k].back != [] ==> ys[k].back[0].beat.Lone() || ys[k].back[0].beat.id in ys[k].src.tracks
  {
    if k > 0 {
      AllRunsKeepInv(limit, ys, events, k - 1);
      assert StepAt(limit, ys, events, k - 1);
      StepKeeps(limit, ys[k - 1], events[k - 1], ys[k]);
    }
    if ys[k].back != [] {
      DeliverKeeps(ys[k]);
    }
  }

  lemma QuietIsLast(y: System, id: int)
    requires Inv(y) && y.wire == [] && y.back == [] && id in y.open
    ensures y.open[id].beats == [] || !y.open[id].beats[|y.open[id].beats| - 1].isLast
  {
    assert IdOk(y, id);
  }

  /** When nothing is under way and no burst lacks its last beat, every burst begun has been acknowledged
      exactly once, with all its bytes and all its errors. */
  lemma QuietMeansAcked(y: System)
    requires Inv(y) && y.wire == [] && y.back == []
    requires forall id :: id in y.open ==> y.open[id].beats != [] && y.open[id].beats[|y.open[id].beats| - 1].isLast
    ensures y.open == map[] && y.src.pending == 0 && y.begun == |y.acks|
    ensures forall k :: 0 <= k < |y.acks| ==> Complete(y.closed[k]) && y.acks[k] == AckOf(y.closed[k])
  {
    forall id | id in y.open ensures false {
      QuietIsLast(y, id);
    }
  }
}
