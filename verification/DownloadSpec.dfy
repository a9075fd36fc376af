/**
 * The resumable download (client/src/network/http.rs) and its verified, atomic placement in the
 * cache directory (client/src/cache/manager.rs). Range requests follow RFC 9110,
 * sections 14.2 (Range), 15.3.7 (206) and 15.5.17 (416).
 */
module DownloadSpec {
  import opened CacheNames
  import opened Octets
  import opened Options
  import opened Text

  /**
   * What one request comes to: nothing usable, a 416 (and whether the partial file could be
   * deleted), or a success status with the bytes that reached the file before the stream ended
   * or broke.
   */
  datatype Reply =
    | NoAnswer
    | ErrorStatus
    | NotSatisfiable(removed: bool)
    | Body(bytes: Bytes, complete: bool)

  function StartByte(temp: Option<Bytes>, resume: bool): nat {
    if resume && temp.Some? then |temp.value| else 0
  }

  /** One attempt: append on resume, else start the file over. */
  function TryDownload(temp: Option<Bytes>, resume: bool, reply: Reply): (Option<Bytes>, bool) {
    match reply
    case NoAnswer => (temp, false)
    case ErrorStatus => (temp, false)
    case NotSatisfiable(removed) => (if StartByte(temp, resume) > 0 && removed then None else temp, false)
    case Body(bytes, complete) =>
      (Some(if StartByte(temp, resume) > 0 then temp.value + bytes else bytes), complete)
  }

  /** The answers to successive requests; past the end there is none. */
  function ReplyAt(replies: seq<Reply>, k: nat): Reply { if k < |replies| then replies[k] else NoAnswer }

  function Budget(maxRetries: nat): nat { if maxRetries == 0 then 1 else maxRetries }

  /** The partial file before attempt `k`, when all attempts before it failed. */
  function TempBefore(temp: Option<Bytes>, resume: bool, replies: seq<Reply>, k: nat): Option<Bytes> {
    if k == 0 then temp
    else TryDownload(TempBefore(temp, resume, replies, k - 1), resume, ReplyAt(replies, k - 1)).0
  }

  predicate IsComplete(r: Reply) { r.Body? && r.complete }

  /** Attempts made, counting from attempt `k`: up to the first complete answer, or the budget. */
  function AttemptsFrom(replies: seq<Reply>, k: nat, budget: nat): (n: nat)
    requires k < budget
    ensures k < n <= budget
    ensures forall j | k <= j < n - 1 :: !IsComplete(ReplyAt(replies, j))
    ensures n < budget ==> IsComplete(ReplyAt(replies, n - 1))
    decreases budget - k
  {
    if k + 1 == budget || IsComplete(ReplyAt(replies, k)) then k + 1 else AttemptsFrom(replies, k + 1, budget)
  }

  function Retry(temp: Option<Bytes>, resume: bool, replies: seq<Reply>, maxRetries: nat): (Option<Bytes>, bool) {
    var n := AttemptsFrom(replies, 0, Budget(maxRetries));
    (TempBefore(temp, resume, replies, n), IsComplete(ReplyAt(replies, n - 1)))
  }

  // ---------------------------------------------------------------- an honest server

  /** A server that honours Range: the rest of the source, or 416 past its end. */
  ghost predicate Honest(reply: Reply, source: Bytes, start: nat) {
    match reply
    case NoAnswer => true
    case ErrorStatus => true
    case NotSatisfiable(_) => start > 0 && start >= |source|
    case Body(bytes, complete) =>
      && (start == 0 || start < |source|)
      && bytes <= source[start..]
      && (complete ==> bytes == source[start..])
  }

  ghost predicate AllHonest(source: Bytes, temp: Option<Bytes>, resume: bool, replies: seq<Reply>) {
    forall k | 0 <= k < |replies| ::
      Honest(replies[k], source, StartByte(TempBefore(temp, resume, replies, k), resume))
  }

  /** Absent, or a prefix of the source. */
  ghost predicate IsPrefix(temp: Option<Bytes>, source: Bytes) { temp.Some? ==> temp.value <= source }

  lemma AttemptKeepsPrefix(source: Bytes, temp: Option<Bytes>, resume: bool, reply: Reply)
    requires IsPrefix(temp, source) && Honest(reply, source, StartByte(temp, resume))
    ensures IsPrefix(TryDownload(temp, resume, reply).0, source)
    ensures TryDownload(temp, resume, reply).1 ==> TryDownload(temp, resume, reply).0 == Some(source)
  {
    if reply.Body? {
      var start := StartByte(temp, resume);
      if start > 0 {
        assert temp.value == source[..start];
        assert source == source[..start] + source[start..];
      } else {
        assert source[0..] == source;
      }
    }
  }

  lemma {:induction false} AttemptsKeepPrefix(source: Bytes, temp: Option<Bytes>, resume: bool, replies: seq<Reply>, k: nat)
    requires IsPrefix(temp, source) && AllHonest(source, temp, resume, replies)
    ensures IsPrefix(TempBefore(temp, resume, replies, k), source)
    ensures k > 0 && IsComplete(ReplyAt(replies, k - 1)) ==> TempBefore(temp, resume, replies, k) == Some(source)
  {
    if k > 0 {
      AttemptsKeepPrefix(source, temp, resume, replies, k - 1);
      AttemptKeepsPrefix(source, TempBefore(temp, resume, replies, k - 1), resume, ReplyAt(replies, k - 1));
    }
  }

  /** One of the allowed attempts is answered in full. */
  ghost predicate Answered(replies: seq<Reply>, budget: nat) {
    exists k: nat :: k < budget && IsComplete(ReplyAt(replies, k))
  }

  lemma LastAttemptSucceedsIff(replies: seq<Reply>, budget: nat)
    requires budget > 0
    ensures IsComplete(ReplyAt(replies, AttemptsFrom(replies, 0, budget) - 1)) <==> Answered(replies, budget)
  {
    var n := AttemptsFrom(replies, 0, budget);
    if k: nat :| k < budget && IsComplete(ReplyAt(replies, k)) {
      assert !(k < n - 1);
    }
  }

  /**
   * Against a server that honours Range, through every broken attempt and 416 restart: the
   * partial file stays a prefix, and success leaves exactly the source. It succeeds if and only
   * if one of the allowed attempts is answered in full.
   */
  lemma RetryAgainstHonestServer(source: Bytes, temp: Option<Bytes>, resume: bool, replies: seq<Reply>, maxRetries: nat)
    requires IsPrefix(temp, source) && AllHonest(source, temp, resume, replies)
    ensures var (t, ok) := Retry(temp, resume, replies, maxRetries);
            && IsPrefix(t, source) && (ok ==> t == Some(source))
            && (ok <==> Answered(replies, Budget(maxRetries)))
  {
    var n := AttemptsFrom(replies, 0, Budget(maxRetries));
    AttemptsKeepPrefix(source, temp, resume, replies, n);
    LastAttemptSucceedsIff(replies, Budget(maxRetries));
  }

  /**
   * What an appended answer makes of a partial file: the source if and only if the answer was
   * the missing rest. A server may ignore Range and send everything; that answer, accepted as a
   * success, spoils any non-empty partial file.
   */
  lemma AppendedAnswerIff(source: Bytes, k: nat, bytes: Bytes)
    requires 0 < k <= |source|
    ensures TryDownload(Some(source[..k]), true, Body(bytes, true)).0 == Some(source) <==> bytes == source[k..]
    ensures TryDownload(Some(source[..k]), true, Body(source, true)).0 != Some(source)
    ensures TryDownload(Some(source[..k]), false, Body(source, true)).0 == Some(source)
  {
    var joined := source[..k] + bytes;
    assert joined[k..] == bytes;
    assert source == source[..k] + source[k..];
    assert |source[..k] + source| == k + |source|;
  }

  // ---------------------------------------------------------------- verified placement

  /** The cache directory: file contents by name. */
  type Dir = map<string, Bytes>

  function Get(dir: Dir, name: string): Option<Bytes> { if name in dir then Some(dir[name]) else None }

  function Put(dir: Dir, name: string, content: Option<Bytes>): Dir {
    if content.Some? then dir[name := content.value] else dir - {name}
  }

  lemma PutGet(dir: Dir, name: string, a: Option<Bytes>, b: Option<Bytes>)
    ensures Get(Put(dir, name, a), name) == a
    ensures Put(Put(dir, name, a), name, b) == Put(dir, name, b)
    ensures Put(dir, name, Get(dir, name)) == dir
  {
  }

  /** Renaming a file to its own name does nothing. */
  function Rename(dir: Dir, from: string, onto: string): Dir
    requires from in dir
  {
    (dir - {from})[onto := dir[from]]
  }

  /** An empty expected checksum is not verified. */
  predicate Verifies(hash: Bytes -> string, bytes: Bytes, expected: string) {
    expected == "" || Lower(hash(bytes)) == Lower(expected)
  }

  datatype Item = Item(id: MediaId, filename: string)

  function FinalName(item: Item): string { CacheName(item.id, item.filename) }

  /** The partial file sits beside the cache entry, or is the cache entry. */
  function PartialName(item: Item): string { TempName(FinalName(item)) }

  /** The environment of one call: room granted, answers, and whether rename and cleanup succeed. */
  datatype Call = Call(item: Item, expected: string, room: bool, replies: seq<Reply>, renamed: bool, cleaned: bool)

  const MAX_RETRIES: nat := 3

  function DownloadMedia(dir: Dir, hash: Bytes -> string, c: Call): (Dir, bool) {
    var final, temp := FinalName(c.item), PartialName(c.item);
    if final in dir && Verifies(hash, dir[final], c.expected) then (dir, true)
    else if !c.room then (dir, false)
    else
      var (t, ok) := Retry(Get(dir, temp), true, c.replies, MAX_RETRIES);
      var dir1 := Put(dir, temp, t);
      if ok && t.Some? && Verifies(hash, t.value, c.expected) && c.renamed then (Rename(dir1, temp, final), true)
      else (if c.cleaned then dir1 - {temp} else dir1, false)
  }

  /** A call touches nothing but its own two names, and a success leaves a verified entry. */
  lemma CallTouches(dir: Dir, hash: Bytes -> string, c: Call)
    ensures var (d, ok) := DownloadMedia(dir, hash, c);
            && (forall name | name != FinalName(c.item) && name != PartialName(c.item) :: Get(d, name) == Get(dir, name))
            && (ok ==> FinalName(c.item) in d && Verifies(hash, d[FinalName(c.item)], c.expected))
  {
  }

  /** The cache entry is as it was, or passed the check; and a failed call leaves it alone. */
  ghost predicate EntryIsSafe(dir: Dir, hash: Bytes -> string, c: Call) {
    var (d, ok) := DownloadMedia(dir, hash, c);
    var final := FinalName(c.item);
    && (Get(d, final) == Get(dir, final) || (final in d && Verifies(hash, d[final], c.expected)))
    && (!ok ==> Get(d, final) == Get(dir, final))
  }

  /** One byte arrives and the stream breaks, under a checksum that the byte does not have. */
  function BrokenCall(item: Item, hash: Bytes -> string): Call {
    Call(item, hash([0]) + "x", true, [Body([0], false)], true, false)
  }

  /** Without a cache entry, that byte is left under the partial name. */
  lemma BrokenCallLeavesPartial(item: Item, hash: Bytes -> string)
    ensures var (d, ok) := DownloadMedia(map[], hash, BrokenCall(item, hash));
            !ok && Get(d, PartialName(item)) == Some([0])
  {
    var replies := [Body([0], false)];
    assert ReplyAt(replies, 0) == replies[0];
    assert TempBefore(None, true, replies, 1) == Some([0]);
    assert TempBefore(None, true, replies, 2) == Some([0]);
    assert TempBefore(None, true, replies, 3) == Some([0]);
    LastAttemptSucceedsIff(replies, MAX_RETRIES);
    NoneAnswered(replies);
  }

  lemma NoneAnswered(replies: seq<Reply>)
    requires forall r | r in replies :: !IsComplete(r)
    ensures AttemptsFrom(replies, 0, MAX_RETRIES) == MAX_RETRIES && !Answered(replies, MAX_RETRIES)
  {
    assert forall k: nat :: !IsComplete(ReplyAt(replies, k));
  }

  /**
   * The placement is atomic and verified, whatever the directory, the server and the disk do, if
   * and only if the sanitized file name does not end in `.tmp`: on such a name the partial file
   * is the cache entry itself.
   */
  lemma EntryIsSafeIff(item: Item, hash: Bytes -> string)
    ensures (forall dir: Dir, c: Call | c.item == item :: EntryIsSafe(dir, hash, c))
            <==> !EndsWith(Sanitized(item.filename), TMP)
  {
    PartialIsFinalIff(item.id, item.filename);
    if EndsWith(Sanitized(item.filename), TMP) {
      var c := BrokenCall(item, hash);
      BrokenCallLeavesPartial(item, hash);
      assert |Lower(hash([0]))| != |Lower(c.expected)|;
      assert !EntryIsSafe(map[], hash, c);
    } else {
      forall dir: Dir, c: Call | c.item == item ensures EntryIsSafe(dir, hash, c) {
      }
    }
  }

  /** On such a name a new checksum and a silent server are enough to lose the entry. */
  lemma TmpNameLosesEntry(item: Item, hash: Bytes -> string, before: Bytes, expected: string)
    requires EndsWith(Sanitized(item.filename), TMP) && !Verifies(hash, before, expected)
    ensures DownloadMedia(map[FinalName(item) := before], hash, Call(item, expected, true, [], true, true)) == (map[], false)
  {
    PartialIsFinalIff(item.id, item.filename);
    NoneAnswered([]);
    var temp := Some(before);
    assert TempBefore(temp, true, [], 1) == temp;
    assert TempBefore(temp, true, [], 2) == temp;
    assert TempBefore(temp, true, [], 3) == temp;
  }

  /**
   * With an honest server, a correct checksum, room and a working disk, the call succeeds if and
   * only if one of three attempts is answered in full, and the cache then holds the source.
   */
  lemma DownloadPlacesSource(dir: Dir, hash: Bytes -> string, c: Call, source: Bytes)
    requires var temp := Get(dir, PartialName(c.item));
             IsPrefix(temp, source) && AllHonest(source, temp, true, c.replies)
    requires c.expected == hash(source) && c.expected != "" && c.room && c.renamed
    requires FinalName(c.item) in dir ==> !Verifies(hash, dir[FinalName(c.item)], c.expected)
    ensures var (d, ok) := DownloadMedia(dir, hash, c);
            && (ok <==> Answered(c.replies, MAX_RETRIES))
            && (ok ==> d == (dir - {PartialName(c.item)})[FinalName(c.item) := source])
            && IsPrefix(Get(d, PartialName(c.item)), source)
  {
    RetryAgainstHonestServer(source, Get(dir, PartialName(c.item)), true, c.replies, MAX_RETRIES);
  }

  function RunCalls(dir: Dir, hash: Bytes -> string, calls: seq<Call>): Dir
    decreases |calls|
  {
    if calls == [] then dir else RunCalls(DownloadMedia(dir, hash, calls[0]).0, hash, calls[1..])
  }

  /** Some call of the run was for this entry, with a checksum that `bytes` has. */
  ghost predicate WasExpected(hash: Bytes -> string, calls: seq<Call>, name: string, bytes: Bytes) {
    exists c | c in calls :: FinalName(c.item) == name && Verifies(hash, bytes, c.expected)
  }

  lemma CallKeepsOtherEntry(dir: Dir, hash: Bytes -> string, c: Call, name: string)
    requires !EndsWith(name, TMP)
    ensures var d := DownloadMedia(dir, hash, c).0;
            Get(d, name) == Get(dir, name) || (name in d && FinalName(c.item) == name && Verifies(hash, d[name], c.expected))
  {
    NoPartialHere(name, FinalName(c.item));
  }

  /**
   * Over any run of calls, for any media and against any servers, a cache entry whose name does
   * not end in `.tmp` is what it was, or holds bytes of a checksum that was expected for it.
   */
  lemma {:induction false} RunKeepsFinalVerified(dir: Dir, hash: Bytes -> string, calls: seq<Call>, name: string)
    requires !EndsWith(name, TMP)
    ensures var d := RunCalls(dir, hash, calls);
            Get(d, name) == Get(dir, name) || (name in d && WasExpected(hash, calls, name, d[name]))
    decreases |calls|
  {
    if calls != [] {
      var g := DownloadMedia(dir, hash, calls[0]).0;
      CallKeepsOtherEntry(dir, hash, calls[0], name);
      RunKeepsFinalVerified(g, hash, calls[1..], name);
      var d := RunCalls(g, hash, calls[1..]);
      if Get(d, name) == Get(g, name) {
        assert calls[0] in calls;
      } else {
        assert forall c | c in calls[1..] :: c in calls;
      }
    }
  }

  /** Every answer to a call that uses the partial file `temp` comes from a server that honours Range. */
  ghost predicate HonestRun(dir: Dir, hash: Bytes -> string, calls: seq<Call>, source: Bytes, temp: string)
    decreases |calls|
  {
    calls == [] ||
    ((PartialName(calls[0].item) == temp ==> AllHonest(source, Get(dir, temp), true, calls[0].replies)) &&
     HonestRun(DownloadMedia(dir, hash, calls[0]).0, hash, calls[1..], source, temp))
  }

  lemma CallKeepsPrefix(dir: Dir, hash: Bytes -> string, c: Call, source: Bytes, temp: string)
    requires EndsWith(temp, TMP) && IsPrefix(Get(dir, temp), source)
    requires PartialName(c.item) == temp ==> AllHonest(source, Get(dir, temp), true, c.replies)
    ensures IsPrefix(Get(DownloadMedia(dir, hash, c).0, temp), source)
  {
    if PartialName(c.item) == temp {
      RetryAgainstHonestServer(source, Get(dir, temp), true, c.replies, MAX_RETRIES);
    } else {
      TempNameIsItselfIff(FinalName(c.item));
    }
  }

  /** Over any run of calls, failed and successful, a partial file stays absent or a prefix. */
  lemma {:induction false} RunKeepsPrefix(dir: Dir, hash: Bytes -> string, calls: seq<Call>, source: Bytes, temp: string)
    requires EndsWith(temp, TMP) && IsPrefix(Get(dir, temp), source) && HonestRun(dir, hash, calls, source, temp)
    ensures IsPrefix(Get(RunCalls(dir, hash, calls), temp), source)
    decreases |calls|
  {
    if calls != [] {
      CallKeepsPrefix(dir, hash, calls[0], source, temp);
      RunKeepsPrefix(DownloadMedia(dir, hash, calls[0]).0, hash, calls[1..], source, temp);
    }
  }

  // ---------------------------------------------------------------- what a call needs, and 416

  /** A valid entry needs no room and no network: whatever they would answer, nothing changes. */
  lemma ValidEntryNeedsNothing(dir: Dir, hash: Bytes -> string, c: Call)
    requires FinalName(c.item) in dir && Verifies(hash, dir[FinalName(c.item)], c.expected)
    ensures DownloadMedia(dir, hash, c) == (dir, true)
  {
  }

  /** Without one, no room means failure, with the directory as it was. */
  lemma NoRoomNoChange(dir: Dir, hash: Bytes -> string, c: Call)
    requires FinalName(c.item) in dir ==> !Verifies(hash, dir[FinalName(c.item)], c.expected)
    requires !c.room
    ensures DownloadMedia(dir, hash, c) == (dir, false)
  {
  }

  /**
   * A 416 to a resumed request clears the partial file, so the next attempt asks for everything
   * and its bytes start the file over; one that could not be deleted is resumed again.
   */
  lemma StartsOverAfter416(temp: Option<Bytes>, partial: Bytes, replies: seq<Reply>, k: nat, removed: bool,
                           bytes: Bytes, complete: bool)
    requires partial != [] && k + 1 < |replies| && TempBefore(temp, true, replies, k) == Some(partial)
    requires replies[k] == NotSatisfiable(removed) && replies[k + 1] == Body(bytes, complete)
    ensures && TempBefore(temp, true, replies, k + 1) == (if removed then None else Some(partial))
            && StartByte(TempBefore(temp, true, replies, k + 1), true) == (if removed then 0 else |partial|)
            && TempBefore(temp, true, replies, k + 2) == Some(if removed then bytes else partial + bytes)
  {
  }

  /** Without resume every body starts the file over; with it a body is added; no body, no change but a 416's. */
  lemma AttemptIsExact(temp: Option<Bytes>, resume: bool, reply: Reply)
    ensures var (t, ok) := TryDownload(temp, resume, reply);
            var resumed := resume && temp.Some? && temp.value != [];
            && (ok <==> IsComplete(reply))
            && (reply.Body? ==> t == Some(if resumed then temp.value + reply.bytes else reply.bytes))
            && (!reply.Body? ==> t == if resumed && reply.NotSatisfiable? && reply.removed then None else temp)
  {
  }

  /**
   * A call succeeds exactly when the entry is valid, or there is room, some attempt is answered in
   * full, the file passes the check and the rename goes through. A failure after that leaves no
   * partial file when the cleanup goes through.
   */
  lemma CallSucceedsIff(dir: Dir, hash: Bytes -> string, c: Call)
    ensures var (d, ok) := DownloadMedia(dir, hash, c);
            var final, temp := FinalName(c.item), PartialName(c.item);
            var valid := final in dir && Verifies(hash, dir[final], c.expected);
            var fetched := Retry(Get(dir, temp), true, c.replies, MAX_RETRIES).0;
            && (ok <==> valid || (c.room && c.renamed && Answered(c.replies, MAX_RETRIES)
                                  && fetched.Some? && Verifies(hash, fetched.value, c.expected)))
            && (!ok && c.room && c.cleaned ==> temp !in d)
            && (ok && !valid && temp != final ==> temp !in d && d[final] == fetched.value)
  {
    LastAttemptSucceedsIff(c.replies, MAX_RETRIES);
  }
}
