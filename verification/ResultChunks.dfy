/** Reassembly of command results that arrive as numbered UDP chunks. */
module ResultChunks {
  import opened Wrappers

  /** A chunk frame after its fields were read; None where a field is missing or of
      the wrong kind. */
  datatype Frame = Frame(requestId: string, chunk: Option<int>, chunks: Option<int>, data: Option<string>, uid: string)

  datatype Buffer = Buffer(parts: map<int, string>, total: int, uid: string, ts: real)

  datatype Assembled = Assembled(uid: string, requestId: string, text: string)

  datatype Result<P> = Result(uid: string, requestId: string, payload: P)

  predicate Accepts(f: Frame) {
    && f.requestId != "" && f.chunk.Some? && f.chunks.Some? && f.data.Some?
    && 0 <= f.chunk.value < f.chunks.value
  }

  function Purged(buffers: map<string, Buffer>, ttl: real, now: real): map<string, Buffer> {
    map rid | rid in buffers && buffers[rid].ts >= now - ttl :: buffers[rid]
  }

  predicate Covered(parts: map<int, string>, n: int) {
    forall i :: 0 <= i < n ==> i in parts
  }

  function Concat(parts: map<int, string>, n: nat): string
    requires Covered(parts, n)
  {
    if n == 0 then "" else Concat(parts, n - 1) + parts[n - 1]
  }

  /** The buffer the frame goes into, with the frame in it. */
  function Filled(buffers: map<string, Buffer>, f: Frame, now: real): Buffer
    requires Accepts(f)
  {
    var b := if f.requestId in buffers && buffers[f.requestId].total == f.chunks.value then buffers[f.requestId]
             else Buffer(map[], f.chunks.value, f.uid, now);
    b.(parts := b.parts[f.chunk.value := f.data.value], ts := now, uid := if f.uid != "" then f.uid else b.uid)
  }

  /** A buffer with as many parts as it expects is taken out; should a part be missing
      all the same, nothing comes of it. */
  function AddFrame(buffers: map<string, Buffer>, ttl: real, f: Frame, now: real)
    : (map<string, Buffer>, Option<Assembled>)
  {
    if !Accepts(f) then (buffers, None)
    else
      var kept := Purged(buffers, ttl, now);
      var b := Filled(kept, f, now);
      if |b.parts| < b.total then (kept[f.requestId := b], None)
      else (kept - {f.requestId},
            if Covered(b.parts, b.total) then Some(Assembled(b.uid, f.requestId, Concat(b.parts, b.total))) else None)
  }

  // ---------------------------------------------------------------------
  // A full count is full coverage

  function Range(n: nat): (r: set<int>)
    ensures forall i :: i in r <==> 0 <= i < n
    ensures |r| == n
  {
    if n == 0 then {} else Range(n - 1) + {n - 1}
  }

  lemma {:induction false} Subset(a: set<int>, b: set<int>)
    requires a <= b
    ensures |a| <= |b|
    ensures |a| == |b| ==> a == b
  {
    assert b == a + (b - a);
  }

  ghost predicate BufferOk(b: Buffer) {
    0 < b.total && (forall i :: i in b.parts ==> 0 <= i < b.total) && |b.parts| < b.total
  }

  /** Stored buffers hold only indices in range, and always too few of them. */
  ghost predicate Sound(buffers: map<string, Buffer>) {
    forall rid :: rid in buffers ==> BufferOk(buffers[rid])
  }

  lemma FilledIsWhole(buffers: map<string, Buffer>, f: Frame, now: real)
    requires Sound(buffers) && Accepts(f)
    ensures var b := Filled(buffers, f, now);
            && b.total == f.chunks.value
            && (forall i :: i in b.parts ==> 0 <= i < b.total)
            && |b.parts| <= b.total
            && (|b.parts| == b.total <==> Covered(b.parts, b.total))
  {
    var b := Filled(buffers, f, now);
    assert b.parts.Keys <= Range(b.total);
    Subset(b.parts.Keys, Range(b.total));
    if Covered(b.parts, b.total) {
      assert b.parts.Keys == Range(b.total);
    }
  }

  lemma AddKeepsSound(buffers: map<string, Buffer>, ttl: real, f: Frame, now: real)
    requires Sound(buffers)
    ensures Sound(AddFrame(buffers, ttl, f, now).0)
  {
    if Accepts(f) {
      FilledIsWhole(Purged(buffers, ttl, now), f, now);
    }
  }

  /** A chunk that comes more than the TTL after the last one of its request, or with another
      total, starts over: the buffer then holds it alone. */
  lemma LateChunkStartsOver(buffers: map<string, Buffer>, ttl: real, f: Frame, now: real)
    requires Accepts(f) && f.chunks.value > 1
    requires f.requestId in buffers ==>
               now - buffers[f.requestId].ts > ttl || buffers[f.requestId].total != f.chunks.value
    ensures var (after, output) := AddFrame(buffers, ttl, f, now);
            && output == None && f.requestId in after
            && after[f.requestId] == Buffer(map[f.chunk.value := f.data.value], f.chunks.value, f.uid, now)
  {
    var b := Filled(Purged(buffers, ttl, now), f, now);
    assert b.parts == map[f.chunk.value := f.data.value];
  }

  /** A chunk of one request, and a purge, leave a buffer of another request alone while it is
      no older than the TTL, and drop it once it is. */
  lemma OtherBuffers(buffers: map<string, Buffer>, ttl: real, f: Frame, now: real, other: string)
    requires Accepts(f) && other != f.requestId
    ensures var after := AddFrame(buffers, ttl, f, now).0;
            && (other in after <==> other in buffers && now - buffers[other].ts <= ttl)
            && (other in after ==> after[other] == buffers[other])
  {}

  /** A result is attributed to the device that its last chunk names, or if it names none, to
      the one that the buffer already stood for. */
  lemma LastNamedSender(buffers: map<string, Buffer>, ttl: real, f: Frame, now: real)
    requires AddFrame(buffers, ttl, f, now).1.Some?
    ensures var sender := AddFrame(buffers, ttl, f, now).1.value.uid;
            && (f.uid != "" ==> sender == f.uid)
            && (f.uid == "" && f.chunks.value > 1 ==>
                  f.requestId in buffers && sender == buffers[f.requestId].uid)
  {
    var kept := Purged(buffers, ttl, now);
    if f.chunks.value > 1 && (f.requestId !in kept || kept[f.requestId].total != f.chunks.value) {
      LateChunkStartsOver(buffers, ttl, f, now);
    }
  }

  /** Frames without request id, numbers or text, or with a number out of range, do nothing. */
  lemma UnusableFrames(buffers: map<string, Buffer>, ttl: real, f: Frame, now: real)
    requires || f.requestId == "" || f.chunk == None || f.chunks == None || f.data == None
             || f.chunk.value < 0 || f.chunk.value >= f.chunks.value
    ensures AddFrame(buffers, ttl, f, now) == (buffers, None)
  {}

  // ---------------------------------------------------------------------

  /** The reassembler; the payload parser is whatever JSON library is in use. */
  class ResultChunkReassembler<P> {
    const ttl: real
    const parse: string -> Option<P>
    var buffers: map<string, Buffer>

    ghost predicate Valid()
      reads this
    {
      Sound(buffers)
    }

    constructor (ttlSec: real, parse: string -> Option<P>)
      ensures Valid() && buffers == map[] && this.parse == parse
      ensures ttl == if ttlSec < 1.0 then 1.0 else ttlSec
    {
      ttl := if ttlSec < 1.0 then 1.0 else ttlSec;
      this.parse := parse;
      buffers := map[];
    }

    method Purge(now: real)
      requires Valid()
      modifies this
      ensures Valid() && buffers == Purged(old(buffers), ttl, now)
    {
      var cutoff := now - ttl;
      var stale := set rid | rid in buffers && buffers[rid].ts < cutoff;
      ghost var all := stale;
      while stale != {}
        invariant stale <= all && buffers == old(buffers) - (all - stale)
        decreases stale
      {
        var rid :| rid in stale;
        stale := stale - {rid};
        buffers := buffers - {rid};
      }
      assert buffers == Purged(old(buffers), ttl, now);
    }

    /** Puts the chunk into its buffer, starting a new one when the totals differ. */
    method Store(f: Frame, now: real) returns (buf: Buffer)
      requires Accepts(f)
      modifies this
      ensures buf == Filled(old(buffers), f, now)
      ensures buffers == old(buffers)[f.requestId := buf]
    {
      if f.requestId !in buffers || buffers[f.requestId].total != f.chunks.value {
        buffers := buffers[f.requestId := Buffer(map[], f.chunks.value, f.uid, now)];
      }
      buf := buffers[f.requestId];
      buf := buf.(parts := buf.parts[f.chunk.value := f.data.value], ts := now);
      if f.uid != "" {
        buf := buf.(uid := f.uid);
      }
      buffers := buffers[f.requestId := buf];
    }

    method Join(buf: Buffer) returns (assembled: string)
      requires 0 <= buf.total && Covered(buf.parts, buf.total)
      ensures assembled == Concat(buf.parts, buf.total)
    {
      assembled := "";
      for i := 0 to buf.total
        invariant assembled == Concat(buf.parts, i)
      {
        assembled := assembled + buf.parts[i];
      }
    }

    method Add(f: Frame, now: real) returns (result: Option<Result<P>>)
      requires Valid()
      modifies this
      ensures Valid() && buffers == AddFrame(old(buffers), ttl, f, now).0
      ensures var whole := AddFrame(old(buffers), ttl, f, now).1;
              && (result.Some? <==> whole.Some? && parse(whole.value.text).Some?)
              && (result.Some? ==>
                    && result.value.uid == whole.value.uid && result.value.requestId == f.requestId
                    && parse(whole.value.text) == Some(result.value.payload))
    {
      hide Purged, Filled, Concat, Sound;
      AddKeepsSound(buffers, ttl, f, now);
      if f.requestId == "" || f.chunk.None? || f.chunks.None? { return None; }
      var index, total := f.chunk.value, f.chunks.value;
      if total <= 0 || index < 0 || index >= total { return None; }
      if f.data.None? { return None; }
      Purge(now);
      ghost var kept := buffers;
      FilledIsWhole(kept, f, now);
      var buf := Store(f, now);
      if |buf.parts| < buf.total { return None; }
      buffers := buffers - {f.requestId};
      assert buffers == kept - {f.requestId};
      var assembled := Join(buf);
      var payload := parse(assembled);
      if payload.None? { return None; }
      return Some(Result(buf.uid, f.requestId, payload.value));
    }
  }

  // ---------------------------------------------------------------------
  // Runs

  datatype Arrival = Chunk(frame: Frame, time: real) | Sweep(time: real)

  function Step(buffers: map<string, Buffer>, ttl: real, a: Arrival): map<string, Buffer> {
    match a
    case Chunk(f, now) => AddFrame(buffers, ttl, f, now).0
    case Sweep(now) => Purged(buffers, ttl, now)
  }

  function Run(ttl: real, arrivals: seq<Arrival>): map<string, Buffer> {
    if arrivals == [] then map[]
    else Step(Run(ttl, arrivals[..|arrivals| - 1]), ttl, arrivals[|arrivals| - 1])
  }

  /** What the last arrival of the run makes the reassembler hand over. */
  function LastOutput(ttl: real, arrivals: seq<Arrival>): Option<Assembled>
    requires arrivals != []
  {
    match arrivals[|arrivals| - 1]
    case Sweep(_) => None
    case Chunk(f, now) => AddFrame(Run(ttl, arrivals[..|arrivals| - 1]), ttl, f, now).1
  }

  function Flatten(parts: seq<string>): string {
    if parts == [] then "" else Flatten(parts[..|parts| - 1]) + parts[|parts| - 1]
  }

  /** One command result: who sent it, for which request, cut into which parts. */
  datatype Message = Message(uid: string, requestId: string, parts: seq<string>)

  predicate IsOf(m: Message, a: Arrival) {
    a.Chunk? && a.frame.requestId == m.requestId && Accepts(a.frame)
  }

  /** Every usable chunk of this request carries its own part of the message. */
  ghost predicate Faithful(m: Message, arrivals: seq<Arrival>) {
    forall k :: 0 <= k < |arrivals| && IsOf(m, arrivals[k]) ==>
      var f := arrivals[k].frame;
      && f.chunks.value == |m.parts| && f.chunk.value < |m.parts|
      && f.data.value == m.parts[f.chunk.value] && f.uid == m.uid
  }

  /** The part numbers that arrived since the message last came out whole. */
  function Collected(m: Message, arrivals: seq<Arrival>): set<int> {
    if arrivals == [] then {}
    else
      var front, last := Collected(m, arrivals[..|arrivals| - 1]), arrivals[|arrivals| - 1];
      if !IsOf(m, last) then front
      else
        var now := front + {last.frame.chunk.value};
        if now == Range(|m.parts|) then {} else now
  }

  /** Time of the message's latest chunk. */
  function LastAt(m: Message, arrivals: seq<Arrival>): Option<real> {
    if arrivals == [] then None
    else if IsOf(m, arrivals[|arrivals| - 1]) then Some(arrivals[|arrivals| - 1].time)
    else LastAt(m, arrivals[..|arrivals| - 1])
  }

  /** Time does not step back, and the message's chunks are never more than the TTL apart. */
  ghost predicate Prompt(m: Message, ttl: real, arrivals: seq<Arrival>) {
    arrivals != [] ==>
      var front, last := arrivals[..|arrivals| - 1], arrivals[|arrivals| - 1];
      && Prompt(m, ttl, front)
      && (front != [] ==> front[|front| - 1].time <= last.time)
      && (IsOf(m, last) && LastAt(m, front).Some? ==> last.time - LastAt(m, front).value <= ttl)
  }

  /** What the buffers hold of the message once `arrivals` have been processed. */
  ghost predicate Tracks(m: Message, ttl: real, arrivals: seq<Arrival>) {
    var buffers, got, rid := Run(ttl, arrivals), Collected(m, arrivals), m.requestId;
    && Sound(buffers)
    && (got == {} ==> rid !in buffers)
    && (got != {} ==> arrivals != [] && LastAt(m, arrivals).Some?)
    && (got != {} && rid !in buffers ==> arrivals[|arrivals| - 1].time - LastAt(m, arrivals).value > ttl)
    && (rid in buffers ==>
          var b := buffers[rid];
          && b.parts.Keys == got && b.total == |m.parts| && b.uid == m.uid && LastAt(m, arrivals) == Some(b.ts)
          && forall i :: i in b.parts ==> 0 <= i < |m.parts| && b.parts[i] == m.parts[i])
  }

  lemma {:induction false} ConcatIsFlatten(parts: map<int, string>, whole: seq<string>, n: nat)
    requires n <= |whole| && Covered(parts, n) && forall i :: 0 <= i < n ==> parts[i] == whole[i]
    ensures Concat(parts, n) == Flatten(whole[..n])
  {
    if n > 0 {
      ConcatIsFlatten(parts, whole, n - 1);
      assert whole[..n][..n - 1] == whole[..n - 1];
    }
  }

  lemma FaithfulFront(m: Message, arrivals: seq<Arrival>)
    requires Faithful(m, arrivals) && arrivals != []
    ensures Faithful(m, arrivals[..|arrivals| - 1])
  {}

  /** The buffer that the message's next chunk completes or extends. */
  lemma NextBuffer(m: Message, ttl: real, front: seq<Arrival>, f: Frame, now: real)
    requires ttl >= 0.0 && Tracks(m, ttl, front) && Accepts(f) && f.requestId == m.requestId
    requires f.chunks.value == |m.parts| && f.data.value == m.parts[f.chunk.value] && f.uid == m.uid
    requires front != [] ==> front[|front| - 1].time <= now
    requires LastAt(m, front).Some? ==> now - LastAt(m, front).value <= ttl
    ensures var b := Filled(Purged(Run(ttl, front), ttl, now), f, now);
            && b.parts.Keys == Collected(m, front) + {f.chunk.value}
            && b.total == |m.parts| && b.uid == m.uid && b.ts == now
            && (forall i :: i in b.parts ==> 0 <= i < |m.parts| && b.parts[i] == m.parts[i])
  {}

  lemma WholeBuffer(m: Message, parts: map<int, string>)
    requires forall i :: i in parts ==> 0 <= i < |m.parts| && parts[i] == m.parts[i]
    ensures Covered(parts, |m.parts|) <==> parts.Keys == Range(|m.parts|)
    ensures Covered(parts, |m.parts|) ==> Concat(parts, |m.parts|) == Flatten(m.parts)
  {
    if Covered(parts, |m.parts|) {
      ConcatIsFlatten(parts, m.parts, |m.parts|);
      assert m.parts[..|m.parts|] == m.parts;
    }
  }

  lemma OwnOutput(m: Message, ttl: real, front: seq<Arrival>, f: Frame, now: real)
    requires ttl >= 0.0 && Tracks(m, ttl, front) && Accepts(f) && f.requestId == m.requestId
    requires f.chunks.value == |m.parts| && f.data.value == m.parts[f.chunk.value] && f.uid == m.uid
    requires front != [] ==> front[|front| - 1].time <= now
    requires LastAt(m, front).Some? ==> now - LastAt(m, front).value <= ttl
    ensures var whole := Collected(m, front) + {f.chunk.value} == Range(|m.parts|);
            var kept := Purged(Run(ttl, front), ttl, now);
            AddFrame(Run(ttl, front), ttl, f, now)
            == if whole then (kept - {f.requestId}, Some(Assembled(m.uid, m.requestId, Flatten(m.parts))))
               else (kept[f.requestId := Filled(kept, f, now)], None)
  {
    var kept := Purged(Run(ttl, front), ttl, now);
    var b := Filled(kept, f, now);
    NextBuffer(m, ttl, front, f, now);
    FilledIsWhole(kept, f, now);
    WholeBuffer(m, b.parts);
  }

  lemma OwnChunk(m: Message, ttl: real, front: seq<Arrival>, f: Frame, now: real)
    requires ttl >= 0.0 && Tracks(m, ttl, front) && Accepts(f) && f.requestId == m.requestId
    requires f.chunks.value == |m.parts| && f.data.value == m.parts[f.chunk.value] && f.uid == m.uid
    requires front != [] ==> front[|front| - 1].time <= now
    requires LastAt(m, front).Some? ==> now - LastAt(m, front).value <= ttl
    ensures Tracks(m, ttl, front + [Chunk(f, now)])
  {
    var arrivals := front + [Chunk(f, now)];
    assert arrivals[..|arrivals| - 1] == front;
    NextBuffer(m, ttl, front, f, now);
    OwnOutput(m, ttl, front, f, now);
    AddKeepsSound(Run(ttl, front), ttl, f, now);
  }

  lemma OtherArrival(m: Message, ttl: real, front: seq<Arrival>, a: Arrival)
    requires ttl >= 0.0 && Tracks(m, ttl, front) && !IsOf(m, a)
    requires front != [] ==> front[|front| - 1].time <= a.time
    ensures Tracks(m, ttl, front + [a])
  {
    var arrivals := front + [a];
    assert arrivals[..|arrivals| - 1] == front;
    if a.Chunk? {
      AddKeepsSound(Run(ttl, front), ttl, a.frame, a.time);
    }
  }

  lemma {:induction false} RunTracks(m: Message, ttl: real, arrivals: seq<Arrival>)
    requires ttl >= 0.0 && Faithful(m, arrivals) && Prompt(m, ttl, arrivals)
    ensures Tracks(m, ttl, arrivals)
  {
    if arrivals != [] {
      var front, last := arrivals[..|arrivals| - 1], arrivals[|arrivals| - 1];
      assert arrivals == front + [last];
      FaithfulFront(m, arrivals);
      RunTracks(m, ttl, front);
      if IsOf(m, last) {
        OwnChunk(m, ttl, front, last.frame, last.time);
      } else {
        OtherArrival(m, ttl, front, last);
      }
    }
  }

  /** Main result: whatever the cutting, the order, the repeats and the chunks of other
      requests in between, an arrival hands over this request's text exactly when it
      brings the last part still missing, and then the whole text. */
  lemma ReassemblesExactly(m: Message, ttl: real, arrivals: seq<Arrival>)
    requires ttl >= 0.0 && Faithful(m, arrivals) && Prompt(m, ttl, arrivals) && arrivals != []
    ensures var front, last := arrivals[..|arrivals| - 1], arrivals[|arrivals| - 1];
            var complete := IsOf(m, last) && Collected(m, front) + {last.frame.chunk.value} == Range(|m.parts|);
            && (complete ==> LastOutput(ttl, arrivals) == Some(Assembled(m.uid, m.requestId, Flatten(m.parts))))
            && (!complete ==>
                LastOutput(ttl, arrivals).None? || LastOutput(ttl, arrivals).value.requestId != m.requestId)
  {
    var front, last := arrivals[..|arrivals| - 1], arrivals[|arrivals| - 1];
    FaithfulFront(m, arrivals);
    RunTracks(m, ttl, front);
    if IsOf(m, last) {
      OwnOutput(m, ttl, front, last.frame, last.time);
    }
  }
}
