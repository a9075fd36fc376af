/** Subtitle choice of client/src/playback/subtitle_selector.rs. */
module Subtitles {
  import opened Options
  import opened Text
  import StableSort

  datatype Kind = External | Embedded

  datatype Track = Track(
    id: nat,
    kind: Kind,
    language: Option<string>,
    isDefault: bool,
    isForced: bool,
    streamIndex: Option<nat>)

  datatype Candidate = Candidate(track: Track, localPath: Option<string>)

  datatype Selection = ExternalFile(path: string) | EmbeddedSid(sid: nat) | NoSubtitle

  datatype Resolved = Resolved(externalPaths: seq<string>, selected: Selection, fontSize: Option<nat>)

  // ---------------------------------------------------------------- buckets

  predicate EqIgnoreAsciiCase(a: string, b: string) { Lower(a) == Lower(b) }

  predicate Preferred(c: Candidate, pref: Option<string>) {
    pref.Some? && c.track.language.Some? && EqIgnoreAsciiCase(c.track.language.value, pref.value)
  }

  const BUCKETS: nat := 5

  predicate InBucket(b: nat, c: Candidate, pref: Option<string>) {
    match b
    case 0 => Preferred(c, pref) && c.track.isDefault
    case 1 => Preferred(c, pref)
    case 2 => c.track.isDefault
    case 3 => c.track.isForced
    case _ => true
  }

  /** An external track needs its sidecar on disk; an embedded one is always there. */
  predicate Usable(c: Candidate) { c.track.kind.Embedded? || c.localPath.Some? }

  /** The first bucket that matches, from most to least specific. */
  function Rank(c: Candidate, pref: Option<string>): (b: nat)
    ensures b < BUCKETS && InBucket(b, c, pref) && forall a | 0 <= a < b :: !InBucket(a, c, pref)
  {
    if Preferred(c, pref) then (if c.track.isDefault then 0 else 1)
    else if c.track.isDefault then 2 else if c.track.isForced then 3 else 4
  }

  /** Candidate `i` comes before candidate `j`: bucket, then external first, then list position. */
  predicate Before(cs: seq<Candidate>, pref: Option<string>, i: nat, j: nat) {
    && i < |cs| && j < |cs|
    && (|| Rank(cs[i], pref) < Rank(cs[j], pref)
        || (&& Rank(cs[i], pref) == Rank(cs[j], pref)
            && (|| (cs[i].track.kind.External? && cs[j].track.kind.Embedded?)
                || (cs[i].track.kind == cs[j].track.kind && i < j))))
  }

  /** `i` is the least usable candidate. */
  ghost predicate IsBest(cs: seq<Candidate>, pref: Option<string>, i: nat) {
    && i < |cs| && Usable(cs[i])
    && forall j | 0 <= j < |cs| && j != i && Usable(cs[j]) :: Before(cs, pref, i, j)
  }

  /** The buckets spelled out: preferred and default, preferred, default, forced, any. */
  lemma RankMeaning(c: Candidate, pref: Option<string>)
    ensures var b, p := Rank(c, pref), Preferred(c, pref);
            && (b == 0 <==> p && c.track.isDefault)
            && (b == 1 <==> p && !c.track.isDefault)
            && (b == 2 <==> !p && c.track.isDefault)
            && (b == 3 <==> !p && !c.track.isDefault && c.track.isForced)
            && (b == 4 <==> !p && !c.track.isDefault && !c.track.isForced)
  {
  }

  /**
   * What being best means, track by track: nothing usable is of an earlier bucket; in its bucket
   * an embedded track has no usable external rival, and of its kind it is the first in the list.
   */
  lemma BestMeans(cs: seq<Candidate>, pref: Option<string>, i: nat, j: nat)
    requires IsBest(cs, pref, i) && j < |cs| && Usable(cs[j])
    ensures Rank(cs[i], pref) <= Rank(cs[j], pref)
    ensures Rank(cs[i], pref) == Rank(cs[j], pref) && cs[i].track.kind.Embedded? ==> cs[j].track.kind.Embedded?
    ensures Rank(cs[i], pref) == Rank(cs[j], pref) && cs[i].track.kind == cs[j].track.kind ==> i <= j
  {
    if j != i { assert Before(cs, pref, i, j); }
  }

  lemma BestIsUnique(cs: seq<Candidate>, pref: Option<string>, i: nat, j: nat)
    requires IsBest(cs, pref, i) && IsBest(cs, pref, j)
    ensures i == j
  {
    assert i != j ==> Before(cs, pref, i, j) && Before(cs, pref, j, i);
  }

  // ---------------------------------------------------------------- sid numbering

  predicate IsEmbedded(cs: seq<Candidate>, i: nat) { i < |cs| && cs[i].track.kind.Embedded? }

  function IdAt(cs: seq<Candidate>, i: nat): nat { if i < |cs| then cs[i].track.id else 0 }

  function StreamIndex(cs: seq<Candidate>, i: nat): nat {
    if i < |cs| && cs[i].track.streamIndex.Some? then cs[i].track.streamIndex.value else 0
  }

  /** Stream order, ties by list position. */
  predicate StreamBefore(cs: seq<Candidate>, i: nat, j: nat) {
    StreamIndex(cs, i) < StreamIndex(cs, j) || (StreamIndex(cs, i) == StreamIndex(cs, j) && i < j)
  }

  /** `order` lists the positions of the embedded candidates in stream order. */
  ghost predicate IsStreamOrder(cs: seq<Candidate>, order: seq<nat>) {
    && (forall i: nat :: i in order <==> IsEmbedded(cs, i))
    && (forall a, b | 0 <= a < b < |order| :: StreamBefore(cs, order[a], order[b]))
  }

  function EmbeddedBelow(cs: seq<Candidate>, n: nat): seq<nat> {
    if n == 0 then []
    else EmbeddedBelow(cs, n - 1) + (if IsEmbedded(cs, n - 1) then [n - 1] else [])
  }

  lemma {:induction false} EmbeddedBelowMembers(cs: seq<Candidate>, n: nat)
    ensures forall i: nat :: i in EmbeddedBelow(cs, n) <==> i < n && IsEmbedded(cs, i)
    ensures StableSort.InOrder(EmbeddedBelow(cs, n), (a: nat, b: nat) => a < b)
  {
    if n > 0 {
      var front := EmbeddedBelow(cs, n - 1);
      EmbeddedBelowMembers(cs, n - 1);
      assert forall a | 0 <= a < |front| :: front[a] in front;
    }
  }

  function ByStream(cs: seq<Candidate>): seq<nat> {
    StableSort.Sort(EmbeddedBelow(cs, |cs|), (i: nat) => StreamIndex(cs, i))
  }

  lemma ByStreamIsStreamOrder(cs: seq<Candidate>)
    ensures IsStreamOrder(cs, ByStream(cs))
  {
    var list, key := EmbeddedBelow(cs, |cs|), (i: nat) => StreamIndex(cs, i);
    EmbeddedBelowMembers(cs, |cs|);
    StableSort.SortIsPermutation(list, key);
    StableSort.SortIsStable(list, key, (a: nat, b: nat) => a < b);
    forall i: nat ensures i in ByStream(cs) <==> IsEmbedded(cs, i) {
      assert i in multiset(ByStream(cs)) <==> i in multiset(list);
    }
  }

  /** Track ids are distinct among the candidates. */
  ghost predicate DistinctIds(cs: seq<Candidate>) {
    forall i, j | 0 <= i < j < |cs| :: cs[i].track.id != cs[j].track.id
  }

  /** The first `n` positions of `order` got the numbers 1..n, and nothing else got one. */
  ghost predicate Numbers(cs: seq<Candidate>, order: seq<nat>, n: nat, m: map<nat, nat>) {
    && n <= |order| && |m| == n
    && (forall a | 0 <= a < n :: IdAt(cs, order[a]) in m && m[IdAt(cs, order[a])] == a + 1)
    && (forall id | id in m :: 1 <= m[id] <= n && IdAt(cs, order[m[id] - 1]) == id)
  }

  ghost predicate IsSidMap(cs: seq<Candidate>, m: map<nat, nat>) {
    exists order: seq<nat> :: IsStreamOrder(cs, order) && Numbers(cs, order, |order|, m)
  }

  method BuildEmbeddedSidMap(cs: seq<Candidate>) returns (m: map<nat, nat>)
    ensures m.Keys == set i | 0 <= i < |cs| && IsEmbedded(cs, i) :: IdAt(cs, i)
    ensures DistinctIds(cs) ==> IsSidMap(cs, m)
  {
    var order := ByStream(cs);
    ByStreamIsStreamOrder(cs);
    m := map[];
    for a := 0 to |order|
      invariant m.Keys == set b | 0 <= b < a :: IdAt(cs, order[b])
      invariant DistinctIds(cs) ==> Numbers(cs, order, a, m)
    {
      if DistinctIds(cs) {
        NumberNext(cs, order, a, m);
      }
      m := m[IdAt(cs, order[a]) := a + 1];
    }
    OrderIds(cs, order);
  }

  lemma OrderIds(cs: seq<Candidate>, order: seq<nat>)
    requires IsStreamOrder(cs, order)
    ensures (set b | 0 <= b < |order| :: IdAt(cs, order[b])) == set i | 0 <= i < |cs| && IsEmbedded(cs, i) :: IdAt(cs, i)
  {
    forall i | 0 <= i < |cs| && IsEmbedded(cs, i)
      ensures exists b | 0 <= b < |order| :: IdAt(cs, order[b]) == IdAt(cs, i)
    {
      assert i in order;
    }
    forall b | 0 <= b < |order| ensures order[b] < |cs| && IsEmbedded(cs, order[b]) {
      assert order[b] in order;
    }
  }

  /** Distinct positions of the order carry distinct ids. */
  lemma EarlierIdsDiffer(cs: seq<Candidate>, order: seq<nat>, a: nat)
    requires DistinctIds(cs) && IsStreamOrder(cs, order) && a < |order|
    ensures forall b | 0 <= b < a :: IdAt(cs, order[b]) != IdAt(cs, order[a])
  {
    assert order[a] in order;
    forall b | 0 <= b < a ensures IdAt(cs, order[b]) != IdAt(cs, order[a]) {
      assert order[b] in order && StreamBefore(cs, order[b], order[a]);
    }
  }

  lemma NumberNext(cs: seq<Candidate>, order: seq<nat>, a: nat, m: map<nat, nat>)
    requires DistinctIds(cs) && IsStreamOrder(cs, order) && a < |order| && Numbers(cs, order, a, m)
    ensures Numbers(cs, order, a + 1, m[IdAt(cs, order[a]) := a + 1])
  {
    EarlierIdsDiffer(cs, order, a);
    NumberFresh(cs, order, a, m);
  }

  lemma NumberFresh(cs: seq<Candidate>, order: seq<nat>, a: nat, m: map<nat, nat>)
    requires a < |order| && Numbers(cs, order, a, m)
    requires forall b | 0 <= b < a :: IdAt(cs, order[b]) != IdAt(cs, order[a])
    ensures Numbers(cs, order, a + 1, m[IdAt(cs, order[a]) := a + 1])
  {
    var id := IdAt(cs, order[a]);
    assert id !in m;
    InsertGrows(m, id, a + 1);
  }

  lemma InsertGrows(m: map<nat, nat>, id: nat, v: nat)
    requires id !in m
    ensures |m[id := v]| == |m| + 1
  {
    assert m[id := v].Keys == m.Keys + {id};
    assert |m[id := v]| == |m[id := v].Keys| && |m| == |m.Keys|;
  }

  lemma NumberOf(cs: seq<Candidate>, order: seq<nat>, m: map<nat, nat>, i: nat) returns (a: nat)
    requires IsStreamOrder(cs, order) && Numbers(cs, order, |order|, m) && IsEmbedded(cs, i)
    ensures a < |order| && order[a] == i && IdAt(cs, i) in m && m[IdAt(cs, i)] == a + 1
  {
    assert i in order;
    a :| 0 <= a < |order| && order[a] == i;
  }

  lemma OrderFollowsStream(cs: seq<Candidate>, order: seq<nat>, a: nat, b: nat)
    requires IsStreamOrder(cs, order) && a < |order| && b < |order|
    ensures a < b <==> StreamBefore(cs, order[a], order[b])
  {
    assert a < b ==> StreamBefore(cs, order[a], order[b]);
    assert b < a ==> StreamBefore(cs, order[b], order[a]);
  }

  /**
   * With distinct ids the sid map numbers the embedded tracks 1..m, each number once, in stream
   * order with ties by list position.
   */
  lemma SidMapIsOrderedBijection(cs: seq<Candidate>, m: map<nat, nat>)
    requires DistinctIds(cs) && IsSidMap(cs, m)
    ensures forall i: nat | IsEmbedded(cs, i) :: IdAt(cs, i) in m && 1 <= m[IdAt(cs, i)] <= |m|
    ensures forall i: nat, j: nat | IsEmbedded(cs, i) && IsEmbedded(cs, j) ::
              m[IdAt(cs, i)] < m[IdAt(cs, j)] <==> StreamBefore(cs, i, j)
    ensures forall sid: nat | 1 <= sid <= |m| :: SidTaken(cs, m, sid)
  {
    var order: seq<nat> :| IsStreamOrder(cs, order) && Numbers(cs, order, |order|, m);
    forall i: nat | IsEmbedded(cs, i) ensures IdAt(cs, i) in m && 1 <= m[IdAt(cs, i)] <= |m| {
      var a := NumberOf(cs, order, m, i);
    }
    forall i: nat, j: nat | IsEmbedded(cs, i) && IsEmbedded(cs, j)
      ensures m[IdAt(cs, i)] < m[IdAt(cs, j)] <==> StreamBefore(cs, i, j)
    {
      var a := NumberOf(cs, order, m, i);
      var b := NumberOf(cs, order, m, j);
      OrderFollowsStream(cs, order, a, b);
    }
    forall sid: nat | 1 <= sid <= |m| ensures SidTaken(cs, m, sid) {
      TakeSid(cs, order, m, sid);
    }
  }

  lemma TakeSid(cs: seq<Candidate>, order: seq<nat>, m: map<nat, nat>, sid: nat)
    requires IsStreamOrder(cs, order) && Numbers(cs, order, |order|, m) && 1 <= sid <= |order|
    ensures SidTaken(cs, m, sid)
  {
    assert order[sid - 1] in order;
    assert IsEmbedded(cs, order[sid - 1]);
  }

  ghost predicate SidTaken(cs: seq<Candidate>, m: map<nat, nat>, sid: nat) {
    exists i: nat | IsEmbedded(cs, i) :: IdAt(cs, i) in m && m[IdAt(cs, i)] == sid
  }

  // ---------------------------------------------------------------- choice

  function SelectionOf(c: Candidate, sids: map<nat, nat>): Selection
    requires Usable(c) && (c.track.kind.Embedded? ==> c.track.id in sids)
  {
    if c.track.kind.External? then ExternalFile(c.localPath.value) else EmbeddedSid(sids[c.track.id])
  }

  ghost predicate HasPath(cs: seq<Candidate>, i: nat, path: string) {
    i < |cs| && cs[i].track.kind.External? && cs[i].localPath == Some(path)
  }

  /** `sid` is the number of candidate `i` among the embedded tracks. */
  ghost predicate HasSid(cs: seq<Candidate>, i: nat, sid: nat) {
    exists m: map<nat, nat> :: IsSidMap(cs, m) && IdAt(cs, i) in m && m[IdAt(cs, i)] == sid
  }

  /** The first candidate of a kind, usable, in a bucket. */
  method FirstInBucket(cs: seq<Candidate>, pref: Option<string>, b: nat, kind: Kind) returns (at: Option<nat>)
    ensures at.Some? ==> at.value < |cs| && cs[at.value].track.kind == kind && Usable(cs[at.value])
                         && InBucket(b, cs[at.value], pref)
    ensures at.Some? ==> forall j | 0 <= j < at.value && cs[j].track.kind == kind && Usable(cs[j]) :: !InBucket(b, cs[j], pref)
    ensures at.None? ==> forall j | 0 <= j < |cs| && cs[j].track.kind == kind && Usable(cs[j]) :: !InBucket(b, cs[j], pref)
  {
    for i := 0 to |cs|
      invariant forall j | 0 <= j < i && cs[j].track.kind == kind && Usable(cs[j]) :: !InBucket(b, cs[j], pref)
    {
      if cs[i].track.kind == kind && Usable(cs[i]) && InBucket(b, cs[i], pref) {
        return Some(i);
      }
    }
    at := None;
  }

  /**
   * The selected candidate is the least usable one by bucket, kind and position; nothing is
   * selected exactly when subtitles are off or no candidate is usable.
   */
  ghost predicate IsChoice(cs: seq<Candidate>, pref: Option<string>, enable: bool, sel: Selection) {
    match sel
    case NoSubtitle => !enable || forall c | c in cs :: !Usable(c)
    case ExternalFile(path) =>
      enable && exists i: nat :: IsBest(cs, pref, i) && HasPath(cs, i, path)
    case EmbeddedSid(sid) =>
      enable && exists i: nat :: IsBest(cs, pref, i) && IsEmbedded(cs, i) && (DistinctIds(cs) ==> HasSid(cs, i, sid))
  }

  method Choose(cs: seq<Candidate>, pref: Option<string>, enable: bool) returns (sel: Selection)
    ensures IsChoice(cs, pref, enable, sel)
    ensures sel.NoSubtitle? <==> !enable || forall c | c in cs :: !Usable(c)
  {
    if !enable || cs == [] {
      return NoSubtitle;
    }
    var sids := BuildEmbeddedSidMap(cs);
    for b := 0 to BUCKETS
      invariant forall a, j | 0 <= a < b && 0 <= j < |cs| && Usable(cs[j]) :: !InBucket(a, cs[j], pref)
    {
      var at := FirstInBucket(cs, pref, b, External);
      if at.None? {
        at := FirstInBucket(cs, pref, b, Embedded);
      }
      if at.Some? {
        FirstIsBest(cs, pref, b, at.value);
        assert IsEmbedded(cs, at.value) ==> IdAt(cs, at.value) in sids;
        assert IsBest(cs, pref, at.value);
        return SelectionOf(cs[at.value], sids);
      }
    }
    forall c | c in cs ensures !Usable(c) {
      var j :| 0 <= j < |cs| && cs[j] == c;
      assert Usable(cs[j]) ==> !InBucket(4, cs[j], pref);
    }
    sel := NoSubtitle;
  }

  lemma FirstIsBest(cs: seq<Candidate>, pref: Option<string>, b: nat, at: nat)
    requires b < BUCKETS && at < |cs| && Usable(cs[at]) && InBucket(b, cs[at], pref)
    requires forall a, j | 0 <= a < b && 0 <= j < |cs| && Usable(cs[j]) :: !InBucket(a, cs[j], pref)
    requires forall j | 0 <= j < at && cs[j].track.kind == cs[at].track.kind && Usable(cs[j]) :: !InBucket(b, cs[j], pref)
    requires cs[at].track.kind.Embedded? ==>
               forall j | 0 <= j < |cs| && cs[j].track.kind.External? && Usable(cs[j]) :: !InBucket(b, cs[j], pref)
    ensures IsBest(cs, pref, at)
  {
    assert Rank(cs[at], pref) == b;
    forall j | 0 <= j < |cs| && j != at && Usable(cs[j]) ensures Before(cs, pref, at, j) {
      assert Rank(cs[j], pref) >= b;
    }
  }

  function ExternalPaths(cs: seq<Candidate>): seq<string> {
    if cs == [] then []
    else
      (if cs[0].track.kind.External? && cs[0].localPath.Some? then [cs[0].localPath.value] else [])
      + ExternalPaths(cs[1..])
  }

  /** Registered are exactly the sidecars of external tracks that are on disk. */
  lemma {:induction false} RegisteredIff(cs: seq<Candidate>, path: string)
    ensures path in ExternalPaths(cs) <==> exists c | c in cs :: c.track.kind.External? && c.localPath == Some(path)
  {
    if cs != [] {
      RegisteredIff(cs[1..], path);
      assert forall c :: c in cs <==> c == cs[0] || c in cs[1..];
    }
  }

  /** An external selection is always one of the sidecars registered with the player. */
  lemma {:induction false} SelectedPathIsRegistered(cs: seq<Candidate>, i: nat)
    requires i < |cs| && cs[i].track.kind.External? && cs[i].localPath.Some?
    ensures cs[i].localPath.value in ExternalPaths(cs)
  {
    if i > 0 { SelectedPathIsRegistered(cs[1..], i - 1); }
  }

  method Resolve(cs: seq<Candidate>, pref: Option<string>, enable: bool, fontSize: Option<nat>) returns (r: Resolved)
    ensures r.externalPaths == ExternalPaths(cs) && r.fontSize == fontSize
    ensures r.selected.ExternalFile? ==> r.selected.path in r.externalPaths
    ensures IsChoice(cs, pref, enable, r.selected)
    ensures r.selected.NoSubtitle? <==> !enable || forall c | c in cs :: !Usable(c)
  {
    var selected := Choose(cs, pref, enable);
    if selected.ExternalFile? {
      ghost var i: nat :| IsBest(cs, pref, i) && HasPath(cs, i, selected.path);
      SelectedPathIsRegistered(cs, i);
    }
    r := Resolved(ExternalPaths(cs), selected, fontSize);
  }
}
