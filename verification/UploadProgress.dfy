/** What each accepted call adds to an upload, what it leaves alone, and that a full set of slices completes. */
module UploadProgress {
  import opened Octets
  import opened Options
  import opened UploadSpec

  // ---------------------------------------------------------------- one chunk

  predicate IsChunk(op: Op) { op.StreamChunk? || op.UploadChunk? }

  /** What a chunk call is accepted under: the session, the range, the backend, and a whole transfer. */
  predicate Accepted(s: State, op: Op)
    requires IsChunk(op)
  {
    && op.id in s.sessions && InRange(op.index, s.sessions[op.id].totalChunks)
    && (op.StreamChunk? ==> !s.spaces && op.stream.Complete?)
    && (op.UploadChunk? ==> op.stored && !(s.spaces && op.index.NaN?))
  }

  /** What the backend holds of a chunk. */
  function StoredChunk(s: State, id: string, index: Index): Option<Bytes> {
    if s.spaces then if (id, index) in s.parts then Some(s.parts[(id, index)].bytes) else None
    else if (id, index) in s.chunks then Some(s.chunks[(id, index)]) else None
  }

  /** `index` is received with its size, and every other index as before. */
  ghost predicate CountsOneMore(before: Session, after: Session, index: Index, size: nat) {
    && after.received.Keys == before.received.Keys + {index} && after.received[index].size == size
    && (forall i | i in before.received && i != index :: after.received[i] == before.received[i])
    && after.totalChunks == before.totalChunks
  }

  lemma ReceiveCounts(s: State, id: string, index: Index, info: ChunkInfo)
    requires id in s.sessions
    ensures CountsOneMore(s.sessions[id], Receive(s, id, index, info).sessions[id], index, info.size)
  {
    var before, after := s.sessions[id].received, Receive(s, id, index, info).sessions[id].received;
    assert after == before[index := info];
    assert after.Keys == before.Keys + {index};
  }

  lemma StreamIsReceived(s: State, op: Op)
    requires op.StreamChunk?
    ensures var (t, reply) := Do(s, op);
            && (reply.Ok? <==> Accepted(s, op))
            && (reply.Ok? ==> t == Receive(s.(chunks := s.chunks[(op.id, op.index) := op.body]), op.id, op.index, ChunkInfo("", |op.body|)))
            && (reply.Ok? ==> reply == CountReply(t, op.id))
            && (!reply.Ok? ==> t.sessions == s.sessions && t.parts == s.parts)
  {
  }

  lemma UploadIsReceived(s: State, op: Op)
    requires op.UploadChunk?
    ensures var (t, reply) := Do(s, op);
            && (reply.Ok? <==> Accepted(s, op))
            && (reply.Ok? && s.spaces ==>
                  t == Receive(s.(parts := s.parts[(op.id, op.index) := Part(op.etag, op.body)]), op.id, op.index,
                               ChunkInfo(op.etag, |op.body|)))
            && (reply.Ok? && !s.spaces ==>
                  t == Receive(s.(chunks := s.chunks[(op.id, op.index) := op.body]), op.id, op.index, ChunkInfo("", |op.body|)))
            && (reply.Ok? ==> reply == CountReply(t, op.id))
            && (!reply.Ok? ==> t == s)
  {
  }

  /**
   * A chunk call answers `Ok` exactly when it is accepted; then the chunk is stored, its index is
   * received with its size, every index received before still is, and the reply is the new count.
   */
  lemma ChunkIsReceived(s: State, op: Op)
    requires IsChunk(op)
    ensures Do(s, op).1.Ok? <==> Accepted(s, op)
    ensures Accepted(s, op) ==> op.id in Do(s, op).0.sessions && StoredChunk(Do(s, op).0, op.id, op.index) == Some(op.body)
    ensures Accepted(s, op) ==> CountsOneMore(s.sessions[op.id], Do(s, op).0.sessions[op.id], op.index, |op.body|)
    ensures Accepted(s, op) ==> Do(s, op).1 == Ok(|Do(s, op).0.sessions[op.id].received|, s.sessions[op.id].totalChunks)
    ensures !Accepted(s, op) ==> Do(s, op).0.sessions == s.sessions && Do(s, op).0.parts == s.parts
  {
    if op.StreamChunk? {
      StreamIsReceived(s, op);
      if Accepted(s, op) {
        ReceiveCounts(s.(chunks := s.chunks[(op.id, op.index) := op.body]), op.id, op.index, ChunkInfo("", |op.body|));
      }
    } else {
      UploadIsReceived(s, op);
      if Accepted(s, op) && s.spaces {
        ReceiveCounts(s.(parts := s.parts[(op.id, op.index) := Part(op.etag, op.body)]), op.id, op.index, ChunkInfo(op.etag, |op.body|));
      } else if Accepted(s, op) {
        ReceiveCounts(s.(chunks := s.chunks[(op.id, op.index) := op.body]), op.id, op.index, ChunkInfo("", |op.body|));
      }
    }
  }

  // ---------------------------------------------------------------- other uploads

  /** The two maps agree wherever the key is not `id`'s. */
  ghost predicate SameBut<V(!new)>(a: map<(string, Index), V>, b: map<(string, Index), V>, id: string) {
    forall at: (string, Index) | at.0 != id :: (at in a <==> at in b) && (at in a ==> a[at] == b[at])
  }

  ghost predicate SameSessionsBut(a: map<string, Session>, b: map<string, Session>, id: string) {
    forall other | other != id :: (other in a <==> other in b) && (other in a ==> a[other] == b[other])
  }

  /** Sessions, chunk files and parts of other ids are as they were. */
  ghost predicate SameElsewhere(s: State, t: State, id: string) {
    SameSessionsBut(s.sessions, t.sessions, id) && SameBut(s.chunks, t.chunks, id) && SameBut(s.parts, t.parts, id)
  }

  lemma ForgetTouchesOne(s: State, id: string)
    ensures SameElsewhere(s, Forget(s, id), id)
  {
  }

  lemma CompletionTouchesOne(s: State, id: string, newKey: string, stored: bool)
    ensures var (t, reply) := DoComplete(s, id, newKey, stored);
            && t.spaces == s.spaces
            && (t == s || (t.sessions == Forget(s, id).sessions && t.chunks == Forget(s, id).chunks && t.parts == Forget(s, id).parts))
            && (if reply.Done? then reply.key in t.objects && t.objects - {reply.key} == s.objects - {reply.key}
                else t.objects == s.objects)
  {
  }

  lemma EntryTouchesOne<V(!new)>(m: map<(string, Index), V>, id: string, index: Index, v: V)
    ensures SameBut(m, m[(id, index) := v], id) && SameBut(m, m - {(id, index)}, id) && SameBut(m, m, id)
  {
  }

  lemma ReceiveTouchesOne(s: State, id: string, index: Index, info: ChunkInfo)
    requires id in s.sessions
    ensures SameSessionsBut(s.sessions, Receive(s, id, index, info).sessions, id)
  {
  }

  /** A streamed call changes at most the file of its own chunk ... */
  lemma StreamChangesOneFile(s: State, op: Op)
    requires op.StreamChunk?
    ensures var t, at := Do(s, op).0, (op.id, op.index);
            t.chunks == s.chunks || t.chunks == s.chunks - {at} || t.chunks == s.chunks[at := op.body]
            || (op.stream.Broken? && op.stream.leftover.Some? && t.chunks == s.chunks[at := op.stream.leftover.value])
  {
  }

  /** ... and the record of it. */
  lemma StreamChangesOneRecord(s: State, op: Op)
    requires op.StreamChunk?
    ensures var (t, reply) := Do(s, op);
            && t.spaces == s.spaces && t.objects == s.objects && t.parts == s.parts && !reply.Done?
            && (reply.Ok? <==> Accepted(s, op)) && (!reply.Ok? ==> t.sessions == s.sessions)
            && (reply.Ok? ==> t.sessions == Receive(s, op.id, op.index, ChunkInfo("", |op.body|)).sessions)
  {
  }

  lemma StreamTouchesOne(s: State, op: Op)
    requires op.StreamChunk?
    ensures Do(s, op).0.spaces == s.spaces && Do(s, op).0.objects == s.objects && !Do(s, op).1.Done?
    ensures SameElsewhere(s, Do(s, op).0, op.id)
  {
    StreamChangesOneFile(s, op);
    StreamChangesOneRecord(s, op);
    EntryTouchesOne(s.chunks, op.id, op.index, op.body);
    if op.stream.Broken? && op.stream.leftover.Some? {
      EntryTouchesOne(s.chunks, op.id, op.index, op.stream.leftover.value);
    }
    if op.id in s.sessions { ReceiveTouchesOne(s, op.id, op.index, ChunkInfo("", |op.body|)); }
  }

  lemma UploadTouchesOne(s: State, op: Op)
    requires op.UploadChunk?
    ensures Do(s, op).0.spaces == s.spaces && Do(s, op).0.objects == s.objects && !Do(s, op).1.Done?
    ensures SameElsewhere(s, Do(s, op).0, op.id)
  {
    UploadIsReceived(s, op);
    EntryTouchesOne(s.chunks, op.id, op.index, op.body);
    EntryTouchesOne(s.parts, op.id, op.index, Part(op.etag, op.body));
    if op.id in s.sessions {
      ReceiveTouchesOne(s, op.id, op.index, ChunkInfo(if s.spaces then op.etag else "", |op.body|));
    }
  }

  lemma ChunkTouchesOne(s: State, op: Op)
    requires IsChunk(op)
    ensures Do(s, op).0.spaces == s.spaces && Do(s, op).0.objects == s.objects && !Do(s, op).1.Done?
    ensures SameElsewhere(s, Do(s, op).0, op.id)
  {
    if op.StreamChunk? { StreamTouchesOne(s, op); } else { UploadTouchesOne(s, op); }
  }

  /** A call touches its own upload only ... */
  lemma OthersUntouched(s: State, op: Op)
    ensures Do(s, op).0.spaces == s.spaces && SameElsewhere(s, Do(s, op).0, op.id)
  {
    if IsChunk(op) {
      ChunkTouchesOne(s, op);
    } else if op.CompleteUpload? {
      CompletionTouchesOne(s, op.id, op.newKey, op.stored);
      ForgetTouchesOne(s, op.id);
    } else {
      ForgetTouchesOne(s, op.id);
    }
  }

  /** ... and the objects only by the one that a completion reports done. */
  lemma ObjectsUntouched(s: State, op: Op)
    ensures var (t, reply) := Do(s, op);
            if reply.Done? then op.CompleteUpload? && reply.key in t.objects && t.objects - {reply.key} == s.objects - {reply.key}
            else t.objects == s.objects
  {
    if IsChunk(op) {
      ChunkTouchesOne(s, op);
    } else if op.CompleteUpload? {
      CompletionTouchesOne(s, op.id, op.newKey, op.stored);
    }
  }

  /** An abort, like a success, leaves nothing of the upload but, for a success, its object. */
  lemma EndedUploadIsForgotten(s: State, op: Op)
    requires op.id in s.sessions && (op.AbortUpload? || Do(s, op).1.Done?)
    ensures var t := Do(s, op).0;
            && op.id !in t.sessions
            && (forall at | at in t.chunks :: at.0 != op.id) && (forall at | at in t.parts :: at.0 != op.id)
  {
  }

  // ---------------------------------------------------------------- a full set of slices

  /** The call hands in slice `i` of the upload, and it goes through. */
  ghost predicate Delivers(op: Op, spaces: bool, id: string, data: Bytes, size: Positive, i: nat) {
    && IsChunk(op) && op.id == id && op.index == Number(i) && op.body == Slice(data, size, i)
    && (op.StreamChunk? ==> !spaces && op.stream.Complete?) && (op.UploadChunk? ==> op.stored)
  }

  /** The call is about another upload, or delivers one of the slices. */
  ghost predicate Orderly(op: Op, spaces: bool, id: string, data: Bytes, size: Positive) {
    op.id != id || exists i: nat :: i < CeilDiv(|data|, size) && Delivers(op, spaces, id, data, size, i)
  }

  /** Under way: nothing but numbers in range received, and whatever is received is stored. */
  ghost predicate UnderWay(s: State, id: string, data: Bytes, size: Positive) {
    && Holds(s, id, data, size) && id in s.sessions && NaN !in s.sessions[id].received
    && forall i: nat | Number(i) in s.sessions[id].received :: StoredChunk(s, id, Number(i)).Some?
  }

  lemma OrderlyIsFaithful(op: Op, spaces: bool, id: string, data: Bytes, size: Positive)
    requires Orderly(op, spaces, id, data, size)
    ensures Faithful(op, id, data, size)
  {
  }

  lemma OtherKeepsUnderWay(s: State, op: Op, id: string, data: Bytes, size: Positive)
    requires UnderWay(s, id, data, size) && op.id != id
    ensures UnderWay(Do(s, op).0, id, data, size) && Do(s, op).0.sessions[id] == s.sessions[id]
  {
    OthersUntouched(s, op);
    StepHolds(s, op, id, data, size);
  }

  lemma DeliveryKeepsUnderWay(s: State, op: Op, id: string, data: Bytes, size: Positive, i: nat)
    requires UnderWay(s, id, data, size) && i < CeilDiv(|data|, size) && Delivers(op, s.spaces, id, data, size, i)
    ensures UnderWay(Do(s, op).0, id, data, size) && Do(s, op).0.spaces == s.spaces
    ensures Do(s, op).0.sessions[id].received.Keys == s.sessions[id].received.Keys + {Number(i)}
  {
    ChunkIsReceived(s, op);
    StepHolds(s, op, id, data, size);
  }

  /** Slice `i` is delivered by some call of the run. */
  ghost predicate Delivered(ops: seq<Op>, spaces: bool, id: string, data: Bytes, size: Positive, i: nat) {
    exists op | op in ops :: Delivers(op, spaces, id, data, size, i)
  }

  lemma OrderlyKeepsUnderWay(s: State, op: Op, id: string, data: Bytes, size: Positive)
    requires UnderWay(s, id, data, size) && Orderly(op, s.spaces, id, data, size)
    ensures UnderWay(Do(s, op).0, id, data, size) && Do(s, op).0.spaces == s.spaces
    ensures s.sessions[id].received.Keys <= Do(s, op).0.sessions[id].received.Keys
    ensures forall i: nat | Delivers(op, s.spaces, id, data, size, i) :: Number(i) in Do(s, op).0.sessions[id].received
  {
    if op.id != id {
      OthersUntouched(s, op);
      OtherKeepsUnderWay(s, op, id, data, size);
    } else {
      var i: nat :| i < CeilDiv(|data|, size) && Delivers(op, s.spaces, id, data, size, i);
      DeliveryKeepsUnderWay(s, op, id, data, size, i);
    }
  }

  lemma {:induction false} RunKeepsUnderWay(s: State, ops: seq<Op>, id: string, data: Bytes, size: Positive)
    requires UnderWay(s, id, data, size) && forall op | op in ops :: Orderly(op, s.spaces, id, data, size)
    ensures UnderWay(Run(s, ops), id, data, size) && Run(s, ops).spaces == s.spaces
    ensures s.sessions[id].received.Keys <= Run(s, ops).sessions[id].received.Keys
    ensures forall i: nat | Delivered(ops, s.spaces, id, data, size, i) :: Number(i) in Run(s, ops).sessions[id].received
    decreases |ops|
  {
    if ops != [] {
      var op, t := ops[0], Do(s, ops[0]).0;
      assert op in ops;
      OrderlyKeepsUnderWay(s, op, id, data, size);
      RunKeepsUnderWay(t, ops[1..], id, data, size);
      forall i: nat | Delivered(ops, s.spaces, id, data, size, i)
        ensures Number(i) in Run(s, ops).sessions[id].received
      {
        if Delivers(op, s.spaces, id, data, size, i) {
          assert Number(i) in t.sessions[id].received;
        } else {
          assert Delivered(ops[1..], s.spaces, id, data, size, i);
        }
      }
    }
  }

  /** All numbers below `n`, and nothing else in range, are `n` indices. */
  lemma FullCount(received: map<Index, ChunkInfo>, n: nat)
    requires forall index | index in received :: InRange(index, n) && index.Number?
    requires forall i: nat | i < n :: Number(i) in received
    ensures |received| == n
  {
    var r := set i | 0 <= i < n :: Number(i);
    RangeSize(n);
    assert received.Keys == r by {
      forall index | index in received ensures index in r {
        assert index == Number(index.i);
      }
    }
  }

  /**
   * From `initUpload` on, hand in every slice of the data, in any order and as often as one likes,
   * on either backend, with any calls about other uploads between: a completion that the store or
   * disk takes is `Done`, and the stored object is the data. (The store refuses an empty upload.)
   */
  lemma AllSlicesComplete(s: State, id: string, key: string, data: Bytes, size: Positive, ops: seq<Op>, newKey: string)
    requires forall at | at in s.chunks :: at.0 != id
    requires forall at | at in s.parts :: at.0 != id
    requires forall op | op in ops :: Orderly(op, s.spaces, id, data, size)
    requires forall i: nat | i < CeilDiv(|data|, size) :: Delivered(ops, s.spaces, id, data, size, i)
    requires s.spaces ==> data != []
    ensures var (t, reply) := DoComplete(Run(Do(s, Init(id, key, |data|, size)).0, ops), id, newKey, true);
            reply.Done? && reply.key in t.objects && t.objects[reply.key] == data && reply.size == |data|
  {
    var s1 := Do(s, Init(id, key, |data|, size)).0;
    assert UnderWay(s1, id, data, size);
    RunKeepsUnderWay(s1, ops, id, data, size);
    var t := Run(s1, ops);
    SlicesAreEnough(t, id, data, size, newKey);
  }

  lemma SlicesAreEnough(t: State, id: string, data: Bytes, size: Positive, newKey: string)
    requires UnderWay(t, id, data, size) && (t.spaces ==> data != [])
    requires forall i: nat | i < CeilDiv(|data|, size) :: Number(i) in t.sessions[id].received
    ensures var (u, reply) := DoComplete(t, id, newKey, true);
            reply.Done? && reply.key in u.objects && u.objects[reply.key] == data && reply.size == |data|
  {
    var n := CeilDiv(|data|, size);
    FullCount(t.sessions[id].received, n);
    CeilCovers(|data|, size);
    if !t.spaces {
      forall i | 0 <= i < n ensures (id, Number(i)) in t.chunks {
        assert StoredChunk(t, id, Number(i)).Some?;
      }
    }
    CompletionSucceedsIff(t, id, data, size, newKey, true);
    CompletionRebuilds(t, id, data, size, newKey, true);
  }
}
