/**
 * Cache file names: `{id}_{sanitized}` (client/src/cache/manager.rs) and the id that the
 * directory scan reads back from them (client/src/cache/lru.rs).
 */
module CacheNames {
  import opened Options
  import opened Text

  type MediaId = U32

  const MAX_SANITIZED_FILENAME_BYTES: nat := 200

  // ---------------------------------------------------------------- names

  /** The part of a name before its first `_` (the whole name when there is none). */
  function BeforeUnderscore(name: string): string {
    if name == [] || name[0] == '_' then [] else [name[0]] + BeforeUnderscore(name[1..])
  }

  /** The media id that the scan of the cache directory reads from a file name. */
  function ReadId(name: string): Option<MediaId> {
    ParseU32(BeforeUnderscore(name))
  }

  lemma {:induction false} BeforeUnderscoreOf(prefix: string, rest: string)
    requires '_' !in prefix
    ensures BeforeUnderscore(prefix + "_" + rest) == prefix
  {
    if prefix == [] {
    } else {
      var name := prefix + "_" + rest;
      assert name[1..] == prefix[1..] + "_" + rest;
      BeforeUnderscoreOf(prefix[1..], rest);
    }
  }

  /** Unicode general category Cc, which `char::is_control` tests. */
  predicate IsControl(c: char) { c <= '\U{1F}' || '\U{7F}' <= c <= '\U{9F}' }

  predicate IsSeparator(c: char) { c == '/' || c == '\\' }

  /** Bytes of a character in UTF-8. */
  function Utf8Len(c: char): nat {
    if c < '\U{80}' then 1 else if c < '\U{800}' then 2 else if c < '\U{10000}' then 3 else 4
  }

  function ByteLen(s: string): nat {
    if s == [] then 0 else ByteLen(s[..|s| - 1]) + Utf8Len(s[|s| - 1])
  }

  function LastSegment(s: string): string {
    if s == [] || IsSeparator(s[|s| - 1]) then [] else LastSegment(s[..|s| - 1]) + [s[|s| - 1]]
  }

  function DropControls(s: string): string {
    if s == [] then [] else
      (if IsControl(s[0]) then [] else [s[0]]) + DropControls(s[1..])
  }

  /** The name before the length cut. */
  function Candidate(raw: string): string {
    var cleaned := DropControls(TrimEnd(TrimStart(LastSegment(raw))));
    if cleaned == "" || cleaned == "." || cleaned == ".." then "file" else cleaned
  }

  /** Byte offset `end` lies between two characters of `s`. */
  ghost predicate IsBoundary(s: string, end: nat) {
    exists k | 0 <= k <= |s| :: ByteLen(s[..k]) == end
  }

  /** No separator and no control character. */
  ghost predicate Clean(s: string) { forall c | c in s :: !IsSeparator(c) && !IsControl(c) }

  /** `p` is the longest whole-character prefix of `s` within `limit` bytes. */
  ghost predicate IsLongestPrefixWithin(p: string, s: string, limit: nat) {
    && p <= s
    && ByteLen(p) <= limit
    && forall k | |p| < k <= |s| :: limit < ByteLen(s[..k])
  }

  lemma {:induction false} ByteLenGrows(s: string, i: nat, j: nat)
    requires i <= j <= |s|
    ensures ByteLen(s[..i]) + (j - i) <= ByteLen(s[..j]) <= ByteLen(s[..i]) + 4 * (j - i)
  {
    if i < j {
      ByteLenGrows(s, i, j - 1);
      assert s[..j][..j - 1] == s[..j - 1];
    }
  }

  lemma {:induction false} LastSegmentClean(s: string)
    ensures forall c | c in LastSegment(s) :: !IsSeparator(c)
  {
    if s == [] || IsSeparator(s[|s| - 1]) {
    } else {
      LastSegmentClean(s[..|s| - 1]);
    }
  }

  lemma {:induction false} DropControlsKeeps(s: string)
    ensures forall c :: c in DropControls(s) <==> c in s && !IsControl(c)
  {
    if s != [] { DropControlsKeeps(s[1..]); }
  }

  lemma {:induction false} CandidateIsSafe(raw: string)
    ensures Clean(Candidate(raw))
    ensures Candidate(raw) != "" && Candidate(raw) != "." && Candidate(raw) != ".."
  {
    var last := LastSegment(raw);
    LastSegmentClean(raw);
    TrimKeeps(last);
    TrimKeeps(TrimStart(last));
    DropControlsKeeps(TrimEnd(TrimStart(last)));
  }

  /** The specification of the cut: characters are dropped from the end until the name fits. */
  function Cut(s: string, limit: nat): string {
    if ByteLen(s) <= limit then s else Cut(s[..|s| - 1], limit)
  }

  lemma {:induction false} CutIsLongest(s: string, limit: nat)
    ensures IsLongestPrefixWithin(Cut(s, limit), s, limit)
  {
    if limit < ByteLen(s) {
      var shorter := s[..|s| - 1];
      CutIsLongest(shorter, limit);
      forall k | |Cut(s, limit)| < k <= |s| ensures limit < ByteLen(s[..k]) {
        if k == |s| {
          assert s[..k] == s;
        } else {
          assert s[..k] == shorter[..k];
        }
      }
    }
  }

  lemma LongestPrefixIsUnique(p: string, q: string, s: string, limit: nat)
    requires IsLongestPrefixWithin(p, s, limit) && IsLongestPrefixWithin(q, s, limit)
    ensures p == q
  {
    assert p == s[..|p|] && q == s[..|q|];
  }

  function Sanitized(raw: string): string { Cut(Candidate(raw), MAX_SANITIZED_FILENAME_BYTES) }

  /** The sanitized name is one safe path component, and no shorter than the limit forces. */
  lemma SanitizedIsSafe(raw: string)
    ensures Clean(Sanitized(raw))
    ensures Sanitized(raw) != "" && Sanitized(raw) != "." && Sanitized(raw) != ".."
    ensures IsLongestPrefixWithin(Sanitized(raw), Candidate(raw), MAX_SANITIZED_FILENAME_BYTES)
  {
    var s, limit := Candidate(raw), MAX_SANITIZED_FILENAME_BYTES;
    CandidateIsSafe(raw);
    CutIsLongest(s, limit);
    var n := |Sanitized(raw)|;
    if n < |s| {
      assert ByteLen(s[..0]) == 0;
      ByteLenGrows(s, 0, n + 1);
      assert 50 <= n;
    }
  }

  // ---------------------------------------------------------------- what is kept of a good name

  /** A name that needs no sanitizing: one clean component without outer white space, within the limit. */
  ghost predicate IsGoodName(raw: string) {
    && raw != "" && raw != "." && raw != ".." && Clean(raw) && ByteLen(raw) <= MAX_SANITIZED_FILENAME_BYTES
    && !IsWhitespace(raw[0]) && !IsWhitespace(raw[|raw| - 1])
  }

  lemma {:induction false} LastSegmentAfter(front: string, name: string)
    requires (forall c | c in name :: !IsSeparator(c)) && (front == "" || IsSeparator(front[|front| - 1]))
    ensures LastSegment(front + name) == name
    decreases |name|
  {
    var s := front + name;
    if name == "" {
      assert s == front;
    } else {
      assert s[..|s| - 1] == front + name[..|name| - 1];
      LastSegmentAfter(front, name[..|name| - 1]);
    }
  }

  lemma {:induction false} DropControlsOfClean(s: string)
    requires forall c | c in s :: !IsControl(c)
    ensures DropControls(s) == s
  {
    if s != [] { DropControlsOfClean(s[1..]); }
  }

  /** A good name is kept as it is, and so it is behind any directory part, which is dropped. */
  lemma GoodNameIsKept(front: string, name: string)
    requires IsGoodName(name) && (front == "" || IsSeparator(front[|front| - 1]))
    ensures Sanitized(front + name) == name
  {
    LastSegmentAfter(front, name);
    DropControlsOfClean(name);
    assert TrimEnd(TrimStart(name)) == name;
  }

  lemma {:induction false} ShorterAfterCleaning(s: string)
    ensures |LastSegment(s)| <= |s| && |DropControls(s)| <= |s|
    decreases |s|
  {
    if s != [] {
      ShorterAfterCleaning(s[..|s| - 1]);
      ShorterAfterCleaning(s[1..]);
    }
  }

  lemma {:induction false} TrimShortens(s: string)
    ensures |TrimStart(s)| <= |s| && |TrimEnd(s)| <= |s|
    decreases |s|
  {
    if s != [] {
      TrimShortens(s[1..]);
      TrimShortens(s[..|s| - 1]);
    }
  }

  lemma OuterSpaceShortens(s: string)
    requires s != "" && (IsWhitespace(s[0]) || IsWhitespace(s[|s| - 1]))
    ensures |TrimEnd(TrimStart(s))| < |s|
  {
    TrimShortens(s[1..]);
    TrimShortens(TrimStart(s));
    TrimShortens(s[..|s| - 1]);
  }

  lemma SpacedCandidateIsShorter(raw: string)
    requires raw != "" && Clean(raw) && (IsWhitespace(raw[0]) || IsWhitespace(raw[|raw| - 1]))
    ensures Candidate(raw) == "file" || |Candidate(raw)| < |raw|
  {
    LastSegmentAfter("", raw);
    assert "" + raw == raw;
    OuterSpaceShortens(raw);
    ShorterAfterCleaning(TrimEnd(TrimStart(raw)));
  }

  lemma SpacedIsNotKept(raw: string)
    requires raw != "" && Clean(raw) && (IsWhitespace(raw[0]) || IsWhitespace(raw[|raw| - 1]))
    ensures Sanitized(raw) != raw
  {
    SpacedCandidateIsShorter(raw);
    CutIsLongest(Candidate(raw), MAX_SANITIZED_FILENAME_BYTES);
    if Candidate(raw) == "file" && Sanitized(raw) == raw {
      assert raw <= "file";
      PrefixOfFile(raw);
    }
  }

  lemma PrefixOfFile(raw: string)
    requires raw <= "file" && raw != ""
    ensures !IsWhitespace(raw[0]) && !IsWhitespace(raw[|raw| - 1])
  {
    assert forall i | 0 <= i < |raw| :: raw[i] == "file"[i];
  }

  /** The good names are exactly those that sanitizing keeps. */
  lemma KeptIffGood(raw: string)
    ensures Sanitized(raw) == raw <==> IsGoodName(raw)
  {
    if IsGoodName(raw) {
      GoodNameIsKept("", raw);
      assert "" + raw == raw;
    }
    if Sanitized(raw) == raw {
      SanitizedIsSafe(raw);
      if IsWhitespace(raw[0]) || IsWhitespace(raw[|raw| - 1]) { SpacedIsNotKept(raw); }
    }
  }

  /** The backward search for a character boundary, as the code does it on byte offsets. */
  method SanitizeFilename(raw: string) returns (name: string)
    ensures name == Sanitized(raw)
  {
    var candidate := Candidate(raw);
    CutIsLongest(candidate, MAX_SANITIZED_FILENAME_BYTES);
    assert IsBoundary(candidate, 0) by { assert ByteLen(candidate[..0]) == 0; }
    if ByteLen(candidate) <= MAX_SANITIZED_FILENAME_BYTES {
      return candidate;
    }
    var end := MAX_SANITIZED_FILENAME_BYTES;
    var boundary := BoundaryAt(candidate, end);
    while end > 0 && boundary.None?
      invariant 0 <= end <= MAX_SANITIZED_FILENAME_BYTES
      invariant boundary.Some? ==>
                  0 <= boundary.value <= |candidate| && ByteLen(candidate[..boundary.value]) == end
      invariant boundary.None? ==> !IsBoundary(candidate, end)
      invariant forall e | end < e <= MAX_SANITIZED_FILENAME_BYTES :: !IsBoundary(candidate, e)
    {
      end := end - 1;
      boundary := BoundaryAt(candidate, end);
    }
    name := candidate[..boundary.value];
    forall k | |name| < k <= |candidate|
      ensures MAX_SANITIZED_FILENAME_BYTES < ByteLen(candidate[..k])
    {
      ByteLenGrows(candidate, |name|, k);
      assert IsBoundary(candidate, ByteLen(candidate[..k]));
    }
    LongestPrefixIsUnique(name, Sanitized(raw), candidate, MAX_SANITIZED_FILENAME_BYTES);
  }

  /** `is_char_boundary`: how many characters end at byte offset `end`, if it splits none. */
  method BoundaryAt(s: string, end: nat) returns (chars: Option<nat>)
    ensures chars.Some? ==> chars.value <= |s| && ByteLen(s[..chars.value]) == end
    ensures chars.None? ==> !IsBoundary(s, end)
  {
    var k := 0;
    while k <= |s|
      invariant 0 <= k <= |s| + 1
      invariant forall j | 0 <= j < k :: ByteLen(s[..j]) != end
    {
      if ByteLen(s[..k]) == end {
        return Some(k);
      }
      k := k + 1;
    }
    chars := None;
  }

  /** The file name under the cache directory. */
  function CacheName(id: MediaId, raw: string): string { Decimal(id) + "_" + Sanitized(raw) }

  /** The id printed into a cache name is the id the scan reads back. */
  lemma CacheNameRoundTrip(id: MediaId, raw: string)
    ensures ReadId(CacheName(id, raw)) == Some(id)
  {
    DecimalIsDigits(id);
    assert IsDigit(Decimal(id)[0]);
    BeforeUnderscoreOf(Decimal(id), Sanitized(raw));
  }

  /** Distinct media ids never share a cache name, whatever the server-supplied file names are. */
  lemma CacheNamesAreDisjoint(a: MediaId, b: MediaId, rawA: string, rawB: string)
    requires a != b
    ensures CacheName(a, rawA) != CacheName(b, rawB)
  {
    CacheNameRoundTrip(a, rawA);
    CacheNameRoundTrip(b, rawB);
  }

  // ---------------------------------------------------------------- names of partial downloads

  const TMP: string := ".tmp"

  /** The name up to its last dot; all of it when it has none. */
  function Stem(name: string): string
    decreases |name|
  {
    if '.' !in name then name
    else if name[|name| - 1] == '.' then name[..|name| - 1]
    else Stem(name[..|name| - 1])
  }

  /** `with_extension("tmp")`, for a name that does not start with a dot. */
  function TempName(name: string): string { Stem(name) + TMP }

  lemma StemBeforeTmp(front: string)
    ensures Stem(front + TMP) == front
  {
    var name := front + TMP;
    var n := |front|;
    assert name[n] == '.' && name[n + 1] == 't' && name[n + 2] == 'm' && name[n + 3] == 'p';
    assert name[..n + 3][..n + 2] == name[..n + 2];
    assert name[..n + 2][..n + 1] == name[..n + 1];
    assert name[..n + 1][..n] == front;
    assert '.' in name[..n + 1] && '.' in name[..n + 2] && '.' in name[..n + 3] by {
      assert name[..n + 1][n] == '.' && name[..n + 2][n] == '.' && name[..n + 3][n] == '.';
    }
    assert Stem(name[..n + 1]) == front;
    assert Stem(name[..n + 2]) == front;
    assert Stem(name[..n + 3]) == front;
  }

  /** A name is its own partial name if and only if it already ends in `.tmp`. */
  lemma TempNameIsItselfIff(name: string)
    ensures TempName(name) == name <==> EndsWith(name, TMP)
  {
    if EndsWith(name, TMP) {
      var front := name[..|name| - |TMP|];
      assert name == front + TMP;
      StemBeforeTmp(front);
    }
  }

  lemma SuffixAfterUnderscore(front: string, rest: string)
    ensures EndsWith(front + ['_'] + rest, TMP) <==> EndsWith(rest, TMP)
  {
    var name := front + ['_'] + rest;
    assert name[|front|] == '_';
    if |rest| >= |TMP| {
      assert name[|name| - |TMP|..] == rest[|rest| - |TMP|..];
    } else if |name| >= |TMP| {
      assert name[|name| - |TMP|..][|front| - (|name| - |TMP|)] == '_';
    }
  }

  /** A cache name is its own partial name if and only if the sanitized file name ends in `.tmp`. */
  lemma PartialIsFinalIff(id: MediaId, raw: string)
    ensures TempName(CacheName(id, raw)) == CacheName(id, raw) <==> EndsWith(Sanitized(raw), TMP)
  {
    TempNameIsItselfIff(CacheName(id, raw));
    SuffixAfterUnderscore(Decimal(id), Sanitized(raw));
  }

  lemma {:induction false} StemKeepsFront(front: string, rest: string)
    requires '.' !in front
    ensures Stem(front + rest) == front + Stem(rest)
    decreases |rest|
  {
    if '.' in rest {
      var shorter := rest[..|rest| - 1];
      assert (front + rest)[..|front + rest| - 1] == front + shorter;
      if rest[|rest| - 1] != '.' {
        assert '.' in shorter;
        StemKeepsFront(front, shorter);
      }
    }
  }

  lemma DecimalHasNoMarks(id: MediaId)
    ensures '.' !in Decimal(id) + "_" && '_' !in Decimal(id) && ParseU32(Decimal(id)) == Some(id)
  {
    DecimalIsDigits(id);
    assert IsDigit(Decimal(id)[0]);
  }

  /** The scan reads the media id from the name of a partial download too. */
  lemma TempNameCarriesId(id: MediaId, raw: string)
    ensures ReadId(TempName(CacheName(id, raw))) == Some(id)
  {
    var front, rest := Decimal(id) + "_", Stem(Sanitized(raw));
    DecimalHasNoMarks(id);
    StemKeepsFront(front, Sanitized(raw));
    assert (front + rest) + TMP == front + (rest + TMP);
    BeforeUnderscoreOf(Decimal(id), rest + TMP);
  }

  /** The partial downloads of one media id are in nobody else's way. */
  lemma TempNamesAreDisjoint(a: MediaId, b: MediaId, rawA: string, rawB: string)
    requires a != b
    ensures TempName(CacheName(a, rawA)) != CacheName(b, rawB)
    ensures TempName(CacheName(a, rawA)) != TempName(CacheName(b, rawB))
  {
    TempNameCarriesId(a, rawA);
    TempNameCarriesId(b, rawB);
    CacheNameRoundTrip(b, rawB);
  }

  /** A name that does not end in `.tmp` is nobody's partial download. */
  lemma NoPartialHere(name: string, other: string)
    requires !EndsWith(name, TMP)
    ensures TempName(other) != name
  {
    assert EndsWith(TempName(other), TMP);
  }
}
