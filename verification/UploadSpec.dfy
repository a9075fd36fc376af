/**
 * Chunked upload sessions (server/src/services/chunked-upload.service.ts) as a value: the
 * sessions, the chunk files of the local backend, the parts of the object store, and the objects.
 */
module UploadSpec {
  import opened Octets
  import opened Options

  /** Chunk sizes come from the configuration and are positive. */
  type Positive = n: nat | n > 0 witness 1

  /** A chunk index as parsed from the request path: the parse of other text is not a number. */
  datatype Index = Number(i: int) | NaN

  datatype ChunkInfo = ChunkInfo(etag: string, size: nat)

  datatype Session = Session(
    key: string,
    totalSize: nat,
    totalChunks: nat,
    chunkSize: Positive,
    received: map<Index, ChunkInfo>)

  datatype Part = Part(etag: string, bytes: Bytes)

  datatype PartRef = PartRef(number: int, etag: string)

  /** `spaces`: the object-store backend; otherwise chunks are local files. */
  datatype State = State(
    spaces: bool,
    sessions: map<string, Session>,
    chunks: map<(string, Index), Bytes>,
    parts: map<(string, Index), Part>,
    objects: map<string, Bytes>)

  datatype Error = NotFound | BadRequest | Failed

  datatype Reply = Ok(first: nat, second: nat) | Done(key: string, size: nat) | Refused(error: Error)

  /**
   * How a streamed body ended: all there; all there, but the size of the file could not be read;
   * or broken, and what the cleanup left of the file.
   */
  datatype Stream = Complete | Unsized | Broken(leftover: Option<Bytes>)

  datatype Op =
    | Init(id: string, key: string, totalSize: nat, chunkSize: Positive)
    | StreamChunk(id: string, index: Index, body: Bytes, stream: Stream)
    | UploadChunk(id: string, index: Index, body: Bytes, etag: string, stored: bool)
    | CompleteUpload(id: string, newKey: string, stored: bool)
    | AbortUpload(id: string)

  // ---------------------------------------------------------------- operations

  function CeilDiv(a: nat, b: Positive): nat {
    (a + b - 1) / b
  }

  predicate InRange(index: Index, total: nat) { index.NaN? || 0 <= index.i < total }

  function Receive(s: State, id: string, index: Index, info: ChunkInfo): State
    requires id in s.sessions
  {
    var session := s.sessions[id];
    s.(sessions := s.sessions[id := session.(received := session.received[index := info])])
  }

  function CountReply(s: State, id: string): Reply
    requires id in s.sessions
  {
    Ok(|s.sessions[id].received|, s.sessions[id].totalChunks)
  }

  function DoStream(s: State, id: string, index: Index, body: Bytes, stream: Stream): (State, Reply) {
    if id !in s.sessions then (s, Refused(NotFound))
    else if !InRange(index, s.sessions[id].totalChunks) || s.spaces then (s, Refused(BadRequest))
    else match stream
      case Broken(leftover) =>
        (s.(chunks := if leftover.Some? then s.chunks[(id, index) := leftover.value] else s.chunks - {(id, index)}),
         Refused(Failed))
      case Unsized => (s.(chunks := s.chunks[(id, index) := body]), Refused(Failed))
      case Complete =>
        var t := Receive(s.(chunks := s.chunks[(id, index) := body]), id, index, ChunkInfo("", |body|));
        (t, CountReply(t, id))
  }

  /** The buffered path; the object store refuses a part number that is not a number. */
  function DoUpload(s: State, id: string, index: Index, body: Bytes, etag: string, stored: bool): (State, Reply) {
    if id !in s.sessions then (s, Refused(NotFound))
    else if !InRange(index, s.sessions[id].totalChunks) then (s, Refused(BadRequest))
    else if !stored || (s.spaces && index.NaN?) then (s, Refused(Failed))
    else if s.spaces then
      var t := Receive(s.(parts := s.parts[(id, index) := Part(etag, body)]), id, index, ChunkInfo(etag, |body|));
      (t, CountReply(t, id))
    else
      var t := Receive(s.(chunks := s.chunks[(id, index) := body]), id, index, ChunkInfo("", |body|));
      (t, CountReply(t, id))
  }

  /** The first `n` chunk files, one after the other; none if one is missing. */
  function JoinChunks(chunks: map<(string, Index), Bytes>, id: string, n: nat): Option<Bytes> {
    if n == 0 then Some([])
    else
      var front := JoinChunks(chunks, id, n - 1);
      if front.None? || (id, Number(n - 1)) !in chunks then None
      else Some(front.value + chunks[(id, Number(n - 1))])
  }

  /** What the store assembles from a part list, if every part is stored under its etag. */
  function JoinParts(parts: map<(string, Index), Part>, id: string, list: seq<PartRef>): Option<Bytes> {
    if list == [] then Some([])
    else
      var last := list[|list| - 1];
      var front := JoinParts(parts, id, list[..|list| - 1]);
      var at := (id, Number(last.number - 1));
      if front.None? || at !in parts || parts[at].etag != last.etag then None
      else Some(front.value + parts[at].bytes)
  }

  predicate Ascending(list: seq<PartRef>) {
    forall i, j | 0 <= i < j < |list| :: list[i].number < list[j].number
  }

  /** The store's side of finishing a multipart upload. */
  function CompleteMultipart(parts: map<(string, Index), Part>, id: string, list: seq<PartRef>): Option<Bytes> {
    if list == [] || !Ascending(list) then None else JoinParts(parts, id, list)
  }

  /** The received indices are exactly 0..n-1. */
  predicate IsRange(received: map<Index, ChunkInfo>, n: nat) {
    received.Keys == set i | 0 <= i < n :: Number(i)
  }

  /** The part list of a full session: 1..n, ascending. */
  function PartList(received: map<Index, ChunkInfo>, n: nat): seq<PartRef>
    requires IsRange(received, n)
  {
    seq(n, i requires 0 <= i < n => PartRef(i + 1, received[Number(i)].etag))
  }

  function TotalReceived(received: map<Index, ChunkInfo>, n: nat): nat
    requires forall i | 0 <= i < n :: Number(i) in received
  {
    if n == 0 then 0 else TotalReceived(received, n - 1) + received[Number(n - 1)].size
  }

  function Forget(s: State, id: string): State {
    s.(sessions := s.sessions - {id},
       chunks := map at | at in s.chunks && at.0 != id :: s.chunks[at],
       parts := map at | at in s.parts && at.0 != id :: s.parts[at])
  }

  /** `stored`: the store's completion call, or the write of the joined file, goes through. */
  function DoComplete(s: State, id: string, newKey: string, stored: bool): (State, Reply) {
    if id !in s.sessions then (s, Refused(NotFound))
    else
      var session := s.sessions[id];
      var n := session.totalChunks;
      if |session.received| != n then (s, Refused(BadRequest))
      else if s.spaces then
        if !IsRange(session.received, n) || !stored then (s, Refused(Failed))
        else
          match CompleteMultipart(s.parts, id, PartList(session.received, n))
          case None => (s, Refused(Failed))
          case Some(bytes) =>
            (Forget(s, id).(objects := s.objects[session.key := bytes]),
             Done(session.key, TotalReceived(session.received, n)))
      else
        match if stored then JoinChunks(s.chunks, id, n) else None
        case None => (s, Refused(Failed))
        case Some(bytes) => (Forget(s, id).(objects := s.objects[newKey := bytes]), Done(newKey, |bytes|))
  }

  function Do(s: State, op: Op): (State, Reply)
  {
    match op
    case Init(id, key, totalSize, chunkSize) =>
      var n := CeilDiv(totalSize, chunkSize);
      (s.(sessions := s.sessions[id := Session(key, totalSize, n, chunkSize, map[])]), Ok(chunkSize, n))
    case StreamChunk(id, index, body, stream) => DoStream(s, id, index, body, stream)
    case UploadChunk(id, index, body, etag, stored) => DoUpload(s, id, index, body, etag, stored)
    case CompleteUpload(id, newKey, stored) => DoComplete(s, id, newKey, stored)
    case AbortUpload(id) => (if id in s.sessions then Forget(s, id) else s, Ok(0, 0))
  }

  function Run(s: State, ops: seq<Op>): State
    decreases |ops|
  {
    if ops == [] then s else Run(Do(s, ops[0]).0, ops[1..])
  }

  // ---------------------------------------------------------------- slices

  function Min(a: nat, b: nat): nat { if a < b then a else b }

  /** The i-th slice a sender cuts from its data. */
  function Slice(data: Bytes, size: Positive, i: nat): Bytes {
    var from := Min(i * size, |data|);
    data[from..Min(i * size + size, |data|)]
  }

  function JoinSlices(data: Bytes, size: Positive, n: nat): Bytes {
    if n == 0 then [] else JoinSlices(data, size, n - 1) + Slice(data, size, n - 1)
  }

  lemma {:induction false} JoinedPrefix(data: Bytes, size: Positive, n: nat)
    ensures JoinSlices(data, size, n) == data[..Min(n * size, |data|)]
  {
    if n == 0 {
      assert 0 * size == 0;
    } else {
      JoinedPrefix(data, size, n - 1);
      TimesSuccessor(n - 1, size);
      var a, b := Min((n - 1) * size, |data|), Min(n * size, |data|);
      assert Slice(data, size, n - 1) == data[a..b];
      assert data[..a] + data[a..b] == data[..b];
    }
  }

  lemma TimesSuccessor(n: nat, size: nat)
    ensures (n + 1) * size == n * size + size
  {
  }

  lemma CeilCovers(a: nat, b: Positive)
    ensures CeilDiv(a, b) * b >= a
    ensures CeilDiv(a, b) > 0 ==> (CeilDiv(a, b) - 1) * b < a
  {
    var q, r := (a + b - 1) / b, (a + b - 1) % b;
    assert a + b - 1 == q * b + r;
    if q > 0 { TimesSuccessor(q - 1, b); }
  }

  /** Cutting into slices and joining all of them gives the data back. */
  lemma SlicesRebuild(data: Bytes, size: Positive)
    ensures JoinSlices(data, size, CeilDiv(|data|, size)) == data
  {
    CeilCovers(|data|, size);
    JoinedPrefix(data, size, CeilDiv(|data|, size));
    assert data[..|data|] == data;
  }

  // ---------------------------------------------------------------- pigeonhole

  lemma {:induction false} RangeSize(n: nat)
    ensures |set i | 0 <= i < n :: Number(i)| == n
  {
    var r := set i | 0 <= i < n :: Number(i);
    if n == 0 {
      assert r == {};
    } else {
      RangeSize(n - 1);
      assert r == (set i | 0 <= i < n - 1 :: Number(i)) + {Number(n - 1)};
    }
  }

  lemma SubsetOfSameSize<T>(a: set<T>, b: set<T>)
    requires a <= b && |a| == |b|
    ensures a == b
  {
    if a != b {
      var x :| x in b && x !in a;
      SubsetSize(a, b - {x});
    }
  }

  lemma {:induction false} SubsetSize<T>(a: set<T>, b: set<T>)
    requires a <= b
    ensures |a| <= |b|
    decreases |a|
  {
    if a != {} {
      var x :| x in a;
      SubsetSize(a - {x}, b - {x});
    }
  }

  /**
   * The size test and the range check together force the received indices to be exactly
   * 0..n-1 if and only if none of them is not a number, which the range check lets through.
   */
  lemma SizeTestMeansRangeIff(received: map<Index, ChunkInfo>, n: nat)
    requires |received| == n && forall index | index in received :: InRange(index, n)
    ensures IsRange(received, n) <==> NaN !in received
  {
    var r := set i | 0 <= i < n :: Number(i);
    RangeSize(n);
    if NaN !in received {
      forall index | index in received.Keys ensures index in r {
        assert index == Number(index.i);
      }
      SubsetOfSameSize(received.Keys, r);
    }
  }

  // ---------------------------------------------------------------- one upload among many

  /** The operation is not about upload `id`, or it carries the right slice of `data`. */
  ghost predicate Faithful(op: Op, id: string, data: Bytes, size: Positive) {
    match op
    case Init(other, _, _, _) => other != id
    case StreamChunk(other, index, body, stream) =>
      other == id ==>
        (!stream.Broken? && index.Number? && index.i >= 0 ==> body == Slice(data, size, index.i))
        && (stream.Broken? ==> stream.leftover.None?)
    case UploadChunk(other, index, body, _, _) =>
      other == id ==> (index.Number? && index.i >= 0 ==> body == Slice(data, size, index.i))
    case CompleteUpload(_, _, _) => true
    case AbortUpload(_) => true
  }

  /** Whatever is stored for `id` under a number is that slice, and the session's record of it agrees. */
  ghost predicate Holds(s: State, id: string, data: Bytes, size: Positive) {
    && (forall i: nat | (id, Number(i)) in s.chunks :: s.chunks[(id, Number(i))] == Slice(data, size, i))
    && (forall i: nat | (id, Number(i)) in s.parts :: s.parts[(id, Number(i))].bytes == Slice(data, size, i))
    && (id in s.sessions ==>
          var session := s.sessions[id];
          && session.totalChunks == CeilDiv(|data|, size)
          && (forall index | index in session.received :: InRange(index, session.totalChunks))
          && (s.spaces ==> forall i: nat | Number(i) in session.received ::
                (id, Number(i)) in s.parts && s.parts[(id, Number(i))].etag == session.received[Number(i)].etag
                && session.received[Number(i)].size == |Slice(data, size, i)|)
          && (s.spaces ==> NaN !in session.received))
  }

  lemma StreamHolds(s: State, op: Op, id: string, data: Bytes, size: Positive)
    requires op.StreamChunk? && Holds(s, id, data, size) && Faithful(op, id, data, size)
    ensures Holds(Do(s, op).0, id, data, size)
  {
  }

  lemma UploadHolds(s: State, op: Op, id: string, data: Bytes, size: Positive)
    requires op.UploadChunk? && Holds(s, id, data, size) && Faithful(op, id, data, size)
    ensures Holds(Do(s, op).0, id, data, size)
  {
  }

  lemma StepHolds(s: State, op: Op, id: string, data: Bytes, size: Positive)
    requires Holds(s, id, data, size) && Faithful(op, id, data, size)
    ensures Holds(Do(s, op).0, id, data, size)
  {
    match op
    case Init(_, _, _, _) =>
    case StreamChunk(_, _, _, _) => StreamHolds(s, op, id, data, size);
    case UploadChunk(_, _, _, _, _) => UploadHolds(s, op, id, data, size);
    case CompleteUpload(_, _, _) =>
    case AbortUpload(_) =>
  }

  lemma {:induction false} RunHolds(s: State, ops: seq<Op>, id: string, data: Bytes, size: Positive)
    requires Holds(s, id, data, size) && forall op | op in ops :: Faithful(op, id, data, size)
    ensures Holds(Run(s, ops), id, data, size)
    decreases |ops|
  {
    if ops != [] {
      StepHolds(s, ops[0], id, data, size);
      RunHolds(Do(s, ops[0]).0, ops[1..], id, data, size);
    }
  }

  lemma {:induction false} JoinChunksAreSlices(s: State, id: string, data: Bytes, size: Positive, n: nat)
    requires forall i: nat | (id, Number(i)) in s.chunks :: s.chunks[(id, Number(i))] == Slice(data, size, i)
    ensures JoinChunks(s.chunks, id, n).Some? ==> JoinChunks(s.chunks, id, n).value == JoinSlices(data, size, n)
    ensures JoinChunks(s.chunks, id, n).Some? <==> forall i | 0 <= i < n :: (id, Number(i)) in s.chunks
  {
    if n > 0 { JoinChunksAreSlices(s, id, data, size, n - 1); }
  }

  lemma {:induction false} JoinPartsAreSlices(s: State, id: string, data: Bytes, size: Positive, list: seq<PartRef>)
    requires forall i: nat | (id, Number(i)) in s.parts :: s.parts[(id, Number(i))].bytes == Slice(data, size, i)
    requires forall k | 0 <= k < |list| :: list[k].number == k + 1
    requires JoinParts(s.parts, id, list).Some?
    ensures JoinParts(s.parts, id, list).value == JoinSlices(data, size, |list|)
  {
    if list != [] { JoinPartsAreSlices(s, id, data, size, list[..|list| - 1]); }
  }

  lemma {:induction false} SizesAddUp(s: State, id: string, data: Bytes, size: Positive, n: nat)
    requires Holds(s, id, data, size) && s.spaces && id in s.sessions
    requires forall i | 0 <= i < n :: Number(i) in s.sessions[id].received
    ensures TotalReceived(s.sessions[id].received, n) == |JoinSlices(data, size, n)|
  {
    if n > 0 { SizesAddUp(s, id, data, size, n - 1); }
  }

  lemma StoreRebuilds(s: State, id: string, data: Bytes, size: Positive)
    requires Holds(s, id, data, size) && s.spaces && id in s.sessions
    requires var session := s.sessions[id];
             IsRange(session.received, session.totalChunks)
             && CompleteMultipart(s.parts, id, PartList(session.received, session.totalChunks)).Some?
    ensures var session := s.sessions[id];
            && CompleteMultipart(s.parts, id, PartList(session.received, session.totalChunks)) == Some(data)
            && TotalReceived(session.received, session.totalChunks) == |data|
  {
    var n := s.sessions[id].totalChunks;
    SlicesRebuild(data, size);
    JoinPartsAreSlices(s, id, data, size, PartList(s.sessions[id].received, n));
    SizesAddUp(s, id, data, size, n);
  }

  lemma DiskRebuilds(s: State, id: string, data: Bytes, size: Positive)
    requires Holds(s, id, data, size) && id in s.sessions
    requires JoinChunks(s.chunks, id, s.sessions[id].totalChunks).Some?
    ensures JoinChunks(s.chunks, id, s.sessions[id].totalChunks) == Some(data)
  {
    SlicesRebuild(data, size);
    JoinChunksAreSlices(s, id, data, size, s.sessions[id].totalChunks);
  }

  /** A successful completion stores exactly the data, under either backend, and reports its size. */
  lemma CompletionRebuilds(s: State, id: string, data: Bytes, size: Positive, newKey: string, stored: bool)
    requires Holds(s, id, data, size) && DoComplete(s, id, newKey, stored).1.Done?
    ensures var (t, reply) := DoComplete(s, id, newKey, stored);
            reply.key in t.objects && t.objects[reply.key] == data && reply.size == |data| && id !in t.sessions
  {
    if s.spaces {
      StoreRebuilds(s, id, data, size);
    } else {
      DiskRebuilds(s, id, data, size);
    }
  }

  /**
   * Start an upload of `data` under a new id, then let anything happen: its slices in any order,
   * with repeats and broken attempts, indices that are no numbers, other uploads, aborts. When
   * the completion of this upload succeeds, the stored object is exactly `data`.
   */
  lemma UploadRebuildsData(s: State, id: string, key: string, data: Bytes, size: Positive, ops: seq<Op>,
                           newKey: string, stored: bool)
    requires forall at | at in s.chunks :: at.0 != id
    requires forall at | at in s.parts :: at.0 != id
    requires forall op | op in ops :: Faithful(op, id, data, size)
    requires DoComplete(Run(Do(s, Init(id, key, |data|, size)).0, ops), id, newKey, stored).1.Done?
    ensures var (t, reply) := DoComplete(Run(Do(s, Init(id, key, |data|, size)).0, ops), id, newKey, stored);
            reply.key in t.objects && t.objects[reply.key] == data && reply.size == |data|
  {
    var s1 := Do(s, Init(id, key, |data|, size)).0;
    RunHolds(s1, ops, id, data, size);
    CompletionRebuilds(Run(s1, ops), id, data, size, newKey, stored);
  }

  // ---------------------------------------------------------------- when completion succeeds

  lemma {:induction false} JoinListSucceeds(s: State, id: string, n: nat, list: seq<PartRef>)
    requires id in s.sessions && |list| == n
    requires forall k | 0 <= k < n ::
               list[k].number == k + 1 && (id, Number(k)) in s.parts && s.parts[(id, Number(k))].etag == list[k].etag
    ensures JoinParts(s.parts, id, list).Some?
  {
    if n > 0 { JoinListSucceeds(s, id, n - 1, list[..n - 1]); }
  }

  /**
   * On the store a completion succeeds if and only if as many chunks as needed, and at least one,
   * were received and the store takes it. On local disk the count is not enough: every chunk file
   * must be there, and the joined file must be written.
   */
  lemma CompletionSucceedsIff(s: State, id: string, data: Bytes, size: Positive, newKey: string, stored: bool)
    requires Holds(s, id, data, size) && id in s.sessions
    ensures var n := s.sessions[id].totalChunks;
            var counted := |s.sessions[id].received| == n;
            DoComplete(s, id, newKey, stored).1.Done? <==>
            counted && stored && (if s.spaces then n > 0 else forall i | 0 <= i < n :: (id, Number(i)) in s.chunks)
  {
    var session := s.sessions[id];
    var n := session.totalChunks;
    if |session.received| == n {
      SizeTestMeansRangeIff(session.received, n);
      if s.spaces {
        var list := PartList(session.received, n);
        forall k | 0 <= k < n
          ensures list[k].number == k + 1 && (id, Number(k)) in s.parts && s.parts[(id, Number(k))].etag == list[k].etag
        {
          assert Number(k) in session.received;
        }
        JoinListSucceeds(s, id, n, list);
      } else {
        JoinChunksAreSlices(s, id, data, size, n);
      }
    }
  }

  /** Completions of `id` for which the store or the disk does not go through. */
  ghost predicate Failing(ops: seq<Op>, id: string) {
    forall op | op in ops :: op.CompleteUpload? && op.id == id && !op.stored
  }

  /**
   * A failed completion costs nothing: after any number of them the session, the chunks and the
   * parts are as before, and a later one answers and stores what the first would have.
   */
  lemma {:induction false} FailedCompletionsKeep(s: State, ops: seq<Op>, id: string, newKey: string, stored: bool)
    requires Failing(ops, id)
    ensures Run(s, ops) == s
    ensures DoComplete(Run(s, ops), id, newKey, stored) == DoComplete(s, id, newKey, stored)
    decreases |ops|
  {
    if ops != [] {
      assert ops[0] in ops;
      assert Do(s, ops[0]).0 == s;
      FailedCompletionsKeep(s, ops[1..], id, newKey, stored);
    }
  }

  /**
   * A broken second attempt at a chunk that was already received takes its file away but leaves
   * it counted: the size test passes and the completion fails.
   */
  lemma BrokenRetryBlocks(s: State, id: string, data: Bytes, size: Positive, i: nat, newKey: string, stored: bool)
    requires Holds(s, id, data, size) && !s.spaces && DoComplete(s, id, newKey, true).1.Done?
    requires i < s.sessions[id].totalChunks
    ensures var t := DoStream(s, id, Number(i), [], Broken(None)).0;
            && |t.sessions[id].received| == t.sessions[id].totalChunks
            && DoComplete(t, id, newKey, stored) == (t, Refused(Failed))
  {
    var t := DoStream(s, id, Number(i), [], Broken(None)).0;
    JoinChunksAreSlices(t, id, data, size, t.sessions[id].totalChunks);
    assert (id, Number(i)) !in t.chunks;
  }

  lemma {:induction false} JoinOtherIndex(chunks: map<(string, Index), Bytes>, id: string, i: nat, p: Bytes, n: nat)
    requires forall k | 0 <= k < n :: (id, Number(k)) in chunks
    ensures var with := chunks[(id, Number(i)) := p];
            && JoinChunks(chunks, id, n).Some? && JoinChunks(with, id, n).Some?
            && (i >= n ==> JoinChunks(with, id, n).value == JoinChunks(chunks, id, n).value)
            && (i < n ==> (JoinChunks(with, id, n).value == JoinChunks(chunks, id, n).value
                           <==> p == chunks[(id, Number(i))]))
  {
    if n > 0 {
      JoinOtherIndex(chunks, id, i, p, n - 1);
      var with := chunks[(id, Number(i)) := p];
      var a, b := JoinChunks(chunks, id, n - 1).value, JoinChunks(with, id, n - 1).value;
      var x, y := chunks[(id, Number(n - 1))], with[(id, Number(n - 1))];
      if i < n - 1 {
        assert x == y;
        if a + x == b + x { SameTail(a, b, x); }
      } else if i == n - 1 {
        assert a == b && y == p;
        if a + x == a + y { SameHead(a, x, y); }
      }
    }
  }

  lemma SameTail(a: Bytes, b: Bytes, x: Bytes)
    requires a + x == b + x
    ensures a == b
  {
    assert |a| == |b|;
    assert (a + x)[..|a|] == a && (b + x)[..|b|] == b;
  }

  lemma SameHead(a: Bytes, x: Bytes, y: Bytes)
    requires a + x == a + y
    ensures x == y
  {
    assert (a + x)[|a|..] == x && (a + y)[|a|..] == y;
  }

  /**
   * If the cleanup after a broken attempt fails and leaves `p` in place of a received chunk, the
   * completion goes through, and stores the data if and only if `p` is that chunk.
   */
  lemma LeftoverDecides(s: State, id: string, data: Bytes, size: Positive, i: nat, p: Bytes, newKey: string)
    requires Holds(s, id, data, size) && !s.spaces && DoComplete(s, id, newKey, true).1.Done?
    requires i < s.sessions[id].totalChunks
    ensures var (t, reply) := DoComplete(DoStream(s, id, Number(i), [], Broken(Some(p))).0, id, newKey, true);
            reply.Done? && newKey in t.objects && (t.objects[newKey] == data <==> p == Slice(data, size, i))
  {
    var n := s.sessions[id].totalChunks;
    JoinChunksAreSlices(s, id, data, size, n);
    DiskRebuilds(s, id, data, size);
    JoinOtherIndex(s.chunks, id, i, p, n);
  }
}
