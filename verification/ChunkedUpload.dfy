/** The chunked upload service of server/src/services/chunked-upload.service.ts, updated in place. */
module ChunkedUpload {
  import opened Octets
  import opened Options
  import opened UploadSpec
  import StableSort

  class ChunkedUploadService {
    const spaces: bool
    var sessions: map<string, Session>
    var chunks: map<(string, Index), Bytes>
    var parts: map<(string, Index), Part>
    var objects: map<string, Bytes>

    ghost function S(): State
      reads this
    {
      State(spaces, sessions, chunks, parts, objects)
    }

    constructor (spaces: bool)
      ensures S() == State(spaces, map[], map[], map[], map[])
    {
      this.spaces := spaces;
      sessions, chunks, parts, objects := map[], map[], map[], map[];
    }

    /** `id` is the fresh random id, `key` the fresh joined key of the store backend. */
    method InitUpload(id: string, key: string, totalSize: nat, chunkSize: Positive) returns (reply: Reply)
      modifies this`sessions
      ensures (S(), reply) == Do(old(S()), Init(id, key, totalSize, chunkSize))
      ensures reply == Ok(chunkSize, CeilDiv(totalSize, chunkSize))
    {
      var totalChunks := CeilDiv(totalSize, chunkSize);
      sessions := sessions[id := Session(key, totalSize, totalChunks, chunkSize, map[])];
      reply := Ok(chunkSize, totalChunks);
    }

    method RecordChunk(id: string, index: Index, info: ChunkInfo) returns (reply: Reply)
      requires id in sessions
      modifies this`sessions
      ensures S() == Receive(old(S()), id, index, info) && reply == CountReply(S(), id)
    {
      var session := sessions[id];
      sessions := sessions[id := session.(received := session.received[index := info])];
      reply := Ok(|sessions[id].received|, session.totalChunks);
    }

    /** Local backend: the body goes straight to the chunk file; a broken one is removed again. */
    method StreamChunkFromRequest(id: string, index: Index, body: Bytes, stream: Stream) returns (reply: Reply)
      modifies this`sessions, this`chunks
      ensures (S(), reply) == DoStream(old(S()), id, index, body, stream)
    {
      if id !in sessions {
        return Refused(NotFound);
      }
      if !InRange(index, sessions[id].totalChunks) || spaces {
        return Refused(BadRequest);
      }
      if stream.Broken? {
        chunks := if stream.leftover.Some? then chunks[(id, index) := stream.leftover.value] else chunks - {(id, index)};
        return Refused(Failed);
      }
      chunks := chunks[(id, index) := body];
      if stream.Unsized? {
        return Refused(Failed);
      }
      reply := RecordChunk(id, index, ChunkInfo("", |body|));
    }

    method UploadChunk(id: string, index: Index, body: Bytes, etag: string, stored: bool) returns (reply: Reply)
      modifies this`sessions, this`chunks, this`parts
      ensures (S(), reply) == DoUpload(old(S()), id, index, body, etag, stored)
    {
      if id !in sessions {
        return Refused(NotFound);
      }
      if !InRange(index, sessions[id].totalChunks) {
        return Refused(BadRequest);
      }
      if !stored || (spaces && index.NaN?) {
        return Refused(Failed);
      }
      if spaces {
        parts := parts[(id, index) := Part(etag, body)];
        reply := RecordChunk(id, index, ChunkInfo(etag, |body|));
      } else {
        chunks := chunks[(id, index) := body];
        reply := RecordChunk(id, index, ChunkInfo("", |body|));
      }
    }

    method CompleteUpload(id: string, newKey: string, stored: bool) returns (reply: Reply)
      modifies this
      ensures (S(), reply) == DoComplete(old(S()), id, newKey, stored)
    {
      if id !in sessions {
        return Refused(NotFound);
      }
      var session := sessions[id];
      if |session.received| != session.totalChunks {
        return Refused(BadRequest);
      }
      if spaces {
        if !IsRange(session.received, session.totalChunks) {
          return Refused(Failed);
        }
        var list := FinalizeSpaces(session);
        var joined := CompleteMultipart(parts, id, list);
        if !stored || joined.None? {
          return Refused(Failed);
        }
        var size := SumSizes(session);
        objects := objects[session.key := joined.value];
        reply := Done(session.key, size);
      } else {
        var joined := FinalizeLocal(id, session.totalChunks, stored);
        if joined.None? {
          return Refused(Failed);
        }
        objects := objects[newKey := joined.value];
        reply := Done(newKey, |joined.value|);
      }
      RemoveSession(id);
    }

    method RemoveSession(id: string)
      modifies this`sessions, this`chunks, this`parts
      ensures S() == Forget(old(S()), id)
    {
      sessions := sessions - {id};
      chunks := map at | at in chunks && at.0 != id :: chunks[at];
      parts := map at | at in parts && at.0 != id :: parts[at];
    }

    method AbortUpload(id: string)
      modifies this`sessions, this`chunks, this`parts
      ensures S() == Do(old(S()), Op.AbortUpload(id)).0
    {
      if id !in sessions {
        return;
      }
      RemoveSession(id);
    }

    /** Joins the chunk files in index order; fails on the first missing one, or with the disk. */
    method FinalizeLocal(id: string, totalChunks: nat, stored: bool) returns (joined: Option<Bytes>)
      ensures joined == if stored then JoinChunks(chunks, id, totalChunks) else None
    {
      var written := [];
      for i := 0 to totalChunks
        invariant JoinChunks(chunks, id, i) == Some(written)
      {
        if (id, Number(i)) !in chunks {
          MissingStays(chunks, id, i + 1, totalChunks);
          return None;
        }
        written := written + chunks[(id, Number(i))];
      }
      joined := if stored then Some(written) else None;
    }

    /** Collects the parts in whatever order the map yields them, then sorts by part number. */
    method FinalizeSpaces(session: Session) returns (list: seq<PartRef>)
      requires IsRange(session.received, session.totalChunks)
      ensures list == PartList(session.received, session.totalChunks)
    {
      var received, n := session.received, session.totalChunks;
      var rest := received.Keys;
      var found: seq<PartRef> := [];
      while rest != {}
        invariant rest <= received.Keys
        invariant forall p :: p in found <==> IsPartOf(received, p) && Number(p.number - 1) !in rest
        invariant forall i, j | 0 <= i < j < |found| :: found[i].number != found[j].number
        decreases rest
      {
        var index :| index in rest;
        ghost var before := found;
        assert index == Number(index.i);
        found := found + [PartRef(index.i + 1, received[index].etag)];
        rest := rest - {index};
        assert forall i | 0 <= i < |before| :: before[i] in before;
      }
      list := StableSort.Sort(found, (p: PartRef) => p.number);
      SortedPartsAreList(received, n, found);
    }

    method SumSizes(session: Session) returns (size: nat)
      requires IsRange(session.received, session.totalChunks)
      ensures size == TotalReceived(session.received, session.totalChunks)
    {
      size := 0;
      for i := 0 to session.totalChunks
        invariant size == TotalReceived(session.received, i)
      {
        size := size + session.received[Number(i)].size;
      }
    }
  }

  ghost predicate IsPartOf(received: map<Index, ChunkInfo>, p: PartRef) {
    Number(p.number - 1) in received && received[Number(p.number - 1)].etag == p.etag
  }

  lemma {:induction false} MissingStays(chunks: map<(string, Index), Bytes>, id: string, i: nat, n: nat)
    requires JoinChunks(chunks, id, i).None? && i <= n
    ensures JoinChunks(chunks, id, n).None?
    decreases n
  {
    if i < n { MissingStays(chunks, id, i, n - 1); }
  }

  ghost predicate Occurs(list: seq<PartRef>, v: int) { exists p | p in list :: p.number == v }

  /** Strictly ascending numbers that are exactly 1..n are the list 1, 2, ..., n. */
  lemma {:induction false} AscendingIsRange(list: seq<PartRef>, n: nat)
    requires Ascending(list)
    requires forall v :: Occurs(list, v) <==> 1 <= v <= n
    ensures |list| == n && forall k | 0 <= k < n :: list[k].number == k + 1
  {
    if n == 0 {
      assert list != [] ==> Occurs(list, list[0].number);
    } else {
      assert Occurs(list, n);
      var k :| 0 <= k < |list| && list[k].number == n;
      var last := |list| - 1;
      assert Occurs(list, list[last].number);
      var front := list[..last];
      forall v ensures Occurs(front, v) <==> 1 <= v <= n - 1 {
        if Occurs(front, v) {
          var j :| 0 <= j < last && front[j].number == v;
          assert list[j] in list && Occurs(list, v);
        }
        if 1 <= v <= n - 1 {
          assert Occurs(list, v);
          var j :| 0 <= j < |list| && list[j].number == v;
          assert front[j] in front;
        }
      }
      AscendingIsRange(front, n - 1);
    }
  }

  lemma SortedParts(received: map<Index, ChunkInfo>, found: seq<PartRef>)
    requires forall p :: p in found <==> IsPartOf(received, p)
    requires forall i, j | 0 <= i < j < |found| :: found[i].number != found[j].number
    ensures var list := StableSort.Sort(found, (p: PartRef) => p.number);
            Ascending(list) && forall p :: p in list <==> IsPartOf(received, p)
  {
    var key := (p: PartRef) => p.number;
    var list := StableSort.Sort(found, key);
    StableSort.SortIsPermutation(found, key);
    StableSort.SortIsStable(found, key, (p: PartRef, q: PartRef) => p.number != q.number);
    forall p ensures p in list <==> IsPartOf(received, p) {
      assert p in multiset(list) <==> p in multiset(found);
    }
  }

  lemma AscendingPartsAreList(received: map<Index, ChunkInfo>, n: nat, list: seq<PartRef>)
    requires IsRange(received, n) && Ascending(list)
    requires forall p :: p in list <==> IsPartOf(received, p)
    ensures list == PartList(received, n)
  {
    forall v ensures Occurs(list, v) <==> 1 <= v <= n {
      if 1 <= v <= n {
        assert Number(v - 1) in received.Keys;
        assert IsPartOf(received, PartRef(v, received[Number(v - 1)].etag));
      }
      if Occurs(list, v) {
        var p :| p in list && p.number == v;
        assert Number(v - 1) in received.Keys;
      }
    }
    AscendingIsRange(list, n);
    forall k | 0 <= k < n ensures list[k] == PartList(received, n)[k] {
      assert list[k] in list && IsPartOf(received, list[k]);
    }
  }

  /** Sorting the parts of a full session gives the list 1..n, whatever order they were found in. */
  lemma SortedPartsAreList(received: map<Index, ChunkInfo>, n: nat, found: seq<PartRef>)
    requires IsRange(received, n)
    requires forall p :: p in found <==> IsPartOf(received, p)
    requires forall i, j | 0 <= i < j < |found| :: found[i].number != found[j].number
    ensures StableSort.Sort(found, (p: PartRef) => p.number) == PartList(received, n)
  {
    SortedParts(received, found);
    AscendingPartsAreList(received, n, StableSort.Sort(found, (p: PartRef) => p.number));
  }
}
