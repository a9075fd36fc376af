/** The download of media items, with the cache directory updated in place. */
module Download {
  import opened DownloadSpec
  import opened Octets
  import opened Options

  class MediaCache {
    var dir: Dir

    constructor (dir: Dir)
      ensures this.dir == dir
    {
      this.dir := dir;
    }

    /** One request, resumed from the partial file's length when there is one. */
    method TryOnce(temp: string, resume: bool, reply: Reply) returns (ok: bool)
      modifies this
      ensures var (t, done) := TryDownload(Get(old(dir), temp), resume, reply);
              dir == Put(old(dir), temp, t) && ok == done
    {
      var start := if resume && temp in dir then |dir[temp]| else 0;
      match reply
      case NoAnswer => ok := false;
      case ErrorStatus => ok := false;
      case NotSatisfiable(removed) =>
        if start > 0 && removed {
          dir := dir - {temp};
        }
        ok := false;
      case Body(bytes, complete) =>
        dir := dir[temp := if start > 0 then dir[temp] + bytes else bytes];
        ok := complete;
    }

    /** The retry loop; `attempts` counts the requests made. */
    method DownloadWithRetry(temp: string, resume: bool, replies: seq<Reply>, maxRetries: nat)
      returns (ok: bool, attempts: nat)
      modifies this
      ensures var (t, done) := Retry(Get(old(dir), temp), resume, replies, maxRetries);
              dir == Put(old(dir), temp, t) && ok == done
      ensures 1 <= attempts <= Budget(maxRetries)
      ensures attempts < Budget(maxRetries) ==> ok
    {
      var failed := 0;
      ghost var start := Get(dir, temp);
      ghost var n := AttemptsFrom(replies, 0, Budget(maxRetries));
      PutGet(dir, temp, None, None);
      while true
        invariant 0 <= failed < n
        invariant dir == Put(old(dir), temp, TempBefore(start, resume, replies, failed))
        decreases n - failed
      {
        ghost var t := TempBefore(start, resume, replies, failed);
        PutGet(old(dir), temp, t, TryDownload(t, resume, ReplyAt(replies, failed)).0);
        ok := TryOnce(temp, resume, ReplyAt(replies, failed));
        failed := failed + 1;
        if ok {
          return ok, failed;
        }
        if failed >= maxRetries {
          return false, failed;
        }
      }
    }

    method Fetch(hash: Bytes -> string, c: Call) returns (ok: bool)
      modifies this
      ensures (dir, ok) == DownloadMedia(old(dir), hash, c)
    {
      var final, temp := FinalName(c.item), PartialName(c.item);
      if final in dir && Verifies(hash, dir[final], c.expected) {
        return true;
      }
      if !c.room {
        return false;
      }
      var done, _ := DownloadWithRetry(temp, true, c.replies, MAX_RETRIES);
      if done && temp in dir && Verifies(hash, dir[temp], c.expected) && c.renamed {
        dir := Rename(dir, temp, final);
        return true;
      }
      if c.cleaned {
        dir := dir - {temp};
      }
      ok := false;
    }
  }
}
