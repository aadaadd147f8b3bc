/**
 Bounded object names and the attempt number carried by a Job name
 (crates/common/src/lib.rs, crates/frontend-extension-controller/src/package.rs).
 */
module Names {
  import opened Prelude
  import opened Text

  const MAX_NAME := 63
  const MAX_U32 := 0xFFFF_FFFF

  // ----- bounded_name -----

  function SanitizeChar(c: char): char {
    if 'a' <= c <= 'z' || '0' <= c <= '9' || c == '-' then c
    else if 'A' <= c <= 'Z' then LowerChar(c)
    else '-'
  }

  function Sanitize(s: string): string {
    seq(|s|, i requires 0 <= i < |s| => SanitizeChar(s[i]))
  }

  /** Runs of hyphens squeezed to one. */
  function Squeeze(s: string): string {
    if s == [] then []
    else
      var front, c := s[..|s| - 1], s[|s| - 1];
      if c == '-' && front != [] && front[|front| - 1] == '-' then Squeeze(front) else Squeeze(front) + [c]
  }

  function TrimEndDash(s: string): (r: string)
    ensures r <= s
    ensures r == [] || r[|r| - 1] != '-'
    ensures forall i :: |r| <= i < |s| ==> s[i] == '-'
  {
    if s != [] && s[|s| - 1] == '-' then TrimEndDash(s[..|s| - 1]) else s
  }

  function TrimStartDash(s: string): (r: string)
    ensures |r| <= |s| && r == s[|s| - |r|..]
    ensures r == [] || r[0] != '-'
  {
    if s != [] && s[0] == '-' then TrimStartDash(s[1..]) else s
  }

  function TrimDashes(s: string): string {
    TrimEndDash(TrimStartDash(s))
  }

  function Bound(name: string, maxLen: nat): string {
    if |name| <= maxLen then name
    else
      var truncated := TrimEndDash(name[..maxLen]);
      if truncated == [] then name[..maxLen] else truncated
  }

  function Compact(raw: string): string {
    var compact := TrimDashes(Squeeze(Sanitize(raw)));
    if compact == [] then "fi" else compact
  }

  function BoundedNameOf(raw: string, maxLen: nat): string {
    Bound(Compact(raw), maxLen)
  }

  method BoundedName(raw: string, maxLen: nat) returns (name: string)
    ensures name == BoundedNameOf(raw, maxLen)
  {
    var sanitized := Sanitize(raw);
    var compact := "";
    var lastDash := false;
    for i := 0 to |sanitized|
      invariant compact == Squeeze(sanitized[..i])
      invariant lastDash <==> i > 0 && sanitized[i - 1] == '-'
    {
      var c := sanitized[i];
      assert sanitized[..i + 1][..i] == sanitized[..i];
      if c == '-' {
        if !lastDash {
          compact := compact + [c];
        }
        lastDash := true;
      } else {
        compact := compact + [c];
        lastDash := false;
      }
    }
    assert sanitized[..|sanitized|] == sanitized;
    compact := TrimDashes(compact);
    if compact == "" {
      compact := "fi";
    }
    if |compact| <= maxLen {
      return compact;
    }
    var truncated := TrimEndDash(compact[..maxLen]);
    if truncated == "" {
      truncated := compact[..maxLen];
    }
    return truncated;
  }

  predicate NameChar(c: char) {
    'a' <= c <= 'z' || '0' <= c <= '9' || c == '-'
  }

  ghost predicate NameChars(s: string) {
    forall i :: 0 <= i < |s| ==> NameChar(s[i])
  }

  ghost predicate NoRuns(s: string) {
    forall i, j :: 0 <= i < j < |s| && j == i + 1 ==> s[i] != '-' || s[j] != '-'
  }

  predicate NoEdgeDash(s: string) {
    s == [] || (s[0] != '-' && s[|s| - 1] != '-')
  }

  /** A name that bounded_name leaves alone. */
  ghost predicate Clean(s: string) {
    s != [] && NameChars(s) && NoRuns(s) && NoEdgeDash(s)
  }

  /** A DNS label: section 2.1 of RFC 1123 with the 63-character limit. */
  ghost predicate DnsLabel(s: string) {
    0 < |s| <= MAX_NAME && NameChars(s) && NoEdgeDash(s)
  }

  lemma {:induction false} SqueezeClean(s: string)
    requires NameChars(s)
    ensures NameChars(Squeeze(s)) && NoRuns(Squeeze(s))
    ensures s == [] <==> Squeeze(s) == []
    ensures s != [] ==> Squeeze(s)[|Squeeze(s)| - 1] == s[|s| - 1] && Squeeze(s)[0] == s[0]
  {
    if s != [] {
      SqueezeClean(s[..|s| - 1]);
    }
  }

  lemma {:induction false} SqueezeNothing(s: string)
    requires NoRuns(s)
    ensures Squeeze(s) == s
  {
    if s != [] {
      SqueezeNothing(s[..|s| - 1]);
      assert s == s[..|s| - 1] + [s[|s| - 1]];
    }
  }

  lemma SliceNoRuns(s: string, lo: nat, hi: nat)
    requires NoRuns(s) && lo <= hi <= |s|
    ensures NoRuns(s[lo..hi])
  {
    var r := s[lo..hi];
    forall i, j | 0 <= i < j < |r| && j == i + 1 ensures r[i] != '-' || r[j] != '-' {
      assert r[i] == s[lo + i] && r[j] == s[lo + j];
    }
  }

  lemma SliceNameChars(s: string, lo: nat, hi: nat)
    requires NameChars(s) && lo <= hi <= |s|
    ensures NameChars(s[lo..hi])
  {
    var r := s[lo..hi];
    forall i | 0 <= i < |r| ensures NameChar(r[i]) {
      assert r[i] == s[lo + i];
    }
  }

  lemma PrefixOfSuffix(s: string, t: string, r: string)
    requires |t| <= |s| && t == s[|s| - |t|..] && r <= t
    ensures r == s[|s| - |t|..|s| - |t| + |r|]
  {
  }

  lemma TrimEnds(s: string)
    ensures NoEdgeDash(TrimDashes(s))
  {
    var t := TrimStartDash(s);
    hide TrimStartDash, TrimEndDash;
    assert TrimDashes(s) != [] ==> TrimDashes(s)[0] == t[0];
  }

  lemma TrimClean(s: string)
    requires NameChars(s) && NoRuns(s)
    ensures TrimDashes(s) != [] ==> Clean(TrimDashes(s))
  {
    hide NameChars, NoRuns, NoEdgeDash, TrimStartDash, TrimEndDash;
    var r, lo := TrimDashes(s), |s| - |TrimStartDash(s)|;
    PrefixOfSuffix(s, TrimStartDash(s), r);
    TrimEnds(s);
    SliceNoRuns(s, lo, lo + |r|);
    SliceNameChars(s, lo, lo + |r|);
  }

  lemma BoundClean(s: string, maxLen: nat)
    requires Clean(s) && maxLen > 0
    ensures Clean(Bound(s, maxLen)) && |Bound(s, maxLen)| <= maxLen
    ensures Bound(s, maxLen) <= s
  {
    if |s| > maxLen {
      var t := TrimEndDash(s[..maxLen]);
      assert s[..maxLen][0] == s[0];
      assert t != [];
      assert forall i :: 0 <= i < |t| ==> t[i] == s[i];
    }
  }

  lemma SanitizeChars(raw: string)
    ensures NameChars(Sanitize(raw))
  {
  }

  lemma CompactIsClean(raw: string)
    ensures Clean(Compact(raw))
  {
    SanitizeChars(raw);
    SqueezeClean(Sanitize(raw));
    TrimClean(Squeeze(Sanitize(raw)));
  }

  /** Every bounded name is clean and within its bound. */
  lemma BoundedNameIsClean(raw: string, maxLen: nat)
    requires maxLen > 0
    ensures Clean(BoundedNameOf(raw, maxLen)) && |BoundedNameOf(raw, maxLen)| <= maxLen
  {
    CompactIsClean(raw);
    BoundClean(Compact(raw), maxLen);
  }

  lemma SanitizeNothing(s: string)
    requires NameChars(s)
    ensures Sanitize(s) == s
  {
    forall i | 0 <= i < |s| ensures SanitizeChar(s[i]) == s[i] {
      assert NameChar(s[i]);
    }
  }

  lemma TrimNothing(s: string)
    requires NoEdgeDash(s)
    ensures TrimDashes(s) == s
  {
  }

  /** A clean name within the bound is its own bounded name. */
  lemma CleanIsFixed(s: string, maxLen: nat)
    requires Clean(s) && |s| <= maxLen
    ensures BoundedNameOf(s, maxLen) == s
  {
    SanitizeNothing(s);
    SqueezeNothing(s);
    TrimNothing(s);
  }

  lemma BoundedNameIdempotent(raw: string, maxLen: nat)
    requires maxLen > 0
    ensures BoundedNameOf(BoundedNameOf(raw, maxLen), maxLen) == BoundedNameOf(raw, maxLen)
  {
    BoundedNameIsClean(raw, maxLen);
    CleanIsFixed(BoundedNameOf(raw, maxLen), maxLen);
  }

  // ----- What a bounded name keeps -----

  predicate Alphanumeric(c: char) {
    'a' <= c <= 'z' || 'A' <= c <= 'Z' || '0' <= c <= '9'
  }

  /** The letters and digits of a string in order, letters in lower case. */
  function Core(s: string): string {
    if s == [] then []
    else
      var c := s[|s| - 1];
      Core(s[..|s| - 1]) + if !Alphanumeric(c) then [] else if 'A' <= c <= 'Z' then [(c as int + 32) as char] else [c]
  }

  lemma {:induction false} SanitizeKeepsCore(s: string)
    ensures Core(Sanitize(s)) == Core(s)
  {
    if s != [] {
      SanitizeKeepsCore(s[..|s| - 1]);
      assert Sanitize(s)[..|s| - 1] == Sanitize(s[..|s| - 1]);
    }
  }

  lemma {:induction false} SqueezeKeepsCore(s: string)
    ensures Core(Squeeze(s)) == Core(s)
  {
    if s != [] {
      var front, c := s[..|s| - 1], s[|s| - 1];
      SqueezeKeepsCore(front);
      assert (Squeeze(front) + [c])[..|Squeeze(front)|] == Squeeze(front);
    }
  }

  lemma {:induction false} CoreOfJoin(a: string, b: string)
    ensures Core(a + b) == Core(a) + Core(b)
  {
    if b == [] {
      assert a + b == a;
    } else {
      CoreOfJoin(a, b[..|b| - 1]);
      assert (a + b)[..|a + b| - 1] == a + b[..|b| - 1];
    }
  }

  lemma CoreSkipsDash(s: string)
    requires s != [] && s[0] == '-'
    ensures Core(s) == Core(s[1..])
  {
    assert s == "-" + s[1..];
    CoreOfJoin("-", s[1..]);
  }

  lemma {:induction false} TrimStartKeepsCore(s: string)
    ensures Core(TrimStartDash(s)) == Core(s)
  {
    hide Core;
    if s != [] && s[0] == '-' {
      TrimStartKeepsCore(s[1..]);
      CoreSkipsDash(s);
    }
  }

  lemma {:induction false} TrimEndKeepsCore(s: string)
    ensures Core(TrimEndDash(s)) == Core(s)
  {
    if s != [] && s[|s| - 1] == '-' { TrimEndKeepsCore(s[..|s| - 1]); }
  }

  lemma TrimKeepsCore(s: string)
    ensures Core(TrimDashes(s)) == Core(s)
  {
    hide Core, TrimStartDash, TrimEndDash;
    TrimStartKeepsCore(s);
    TrimEndKeepsCore(TrimStartDash(s));
  }

  lemma NoCoreNoName(raw: string)
    requires Core(raw) == []
    ensures Compact(raw) == "fi"
  {
    var s := Squeeze(Sanitize(raw));
    SanitizeKeepsCore(raw);
    SqueezeKeepsCore(Sanitize(raw));
    TrimKeepsCore(s);
    SanitizeChars(raw);
    SqueezeClean(Sanitize(raw));
    TrimClean(s);
    if TrimDashes(s) != [] { CleanHasCore(TrimDashes(s)); }
  }

  /** A bounded name has the letters and digits of what it was made from, up to the bound; without any it is "fi". */
  lemma BoundedNameKeepsCore(raw: string, maxLen: nat)
    requires maxLen > 0
    ensures var name := BoundedNameOf(raw, maxLen);
      && (Core(raw) != [] ==> Core(name) <= Core(raw) && (|Compact(raw)| <= maxLen ==> Core(name) == Core(raw)))
      && (Core(raw) == [] && maxLen >= 2 ==> name == "fi")
  {
    hide Compact, Clean, Core, Bound;
    CompactIsClean(raw);
    BoundClean(Compact(raw), maxLen);
    var name, compact := BoundedNameOf(raw, maxLen), Compact(raw);
    assert compact == name + compact[|name|..];
    CoreOfJoin(name, compact[|name|..]);
    if Core(raw) == [] { NoCoreNoName(raw); ShortIsWhole("fi", maxLen); }
    else { CompactKeepsCore(raw); ShortIsWhole(compact, maxLen); }
  }

  lemma ShortIsWhole(s: string, maxLen: nat)
    ensures |s| <= maxLen ==> Bound(s, maxLen) == s
  {
  }

  lemma CompactKeepsCore(raw: string)
    requires Core(raw) != []
    ensures Core(Compact(raw)) == Core(raw)
  {
    SanitizeKeepsCore(raw);
    SqueezeKeepsCore(Sanitize(raw));
    TrimKeepsCore(Squeeze(Sanitize(raw)));
    assert Core("") == [];
    hide Core, Sanitize, Squeeze, TrimDashes;
  }

  lemma CleanHasCore(s: string)
    requires s != [] && NoEdgeDash(s) && NameChars(s)
    ensures Core(s) != []
  {
    assert NameChar(s[|s| - 1]);
  }

  // ----- Hash fragments -----

  const SHA256_PREFIX := "sha256:"

  function StripSha(hash: string): string {
    if SHA256_PREFIX <= hash then hash[|SHA256_PREFIX|..] else hash
  }

  function Take(s: string, n: nat): string {
    if |s| <= n then s else s[..n]
  }

  function HashShort(hash: string): string {
    Take(StripSha(hash), 8)
  }

  function HashNameSuffix(hash: string): string {
    if StripSha(hash) == [] then "0" else Take(StripSha(hash), 12)
  }

  function HashLabelValue(hash: string): string {
    if StripSha(hash) == [] then "0" else Take(StripSha(hash), 63)
  }

  /** The 63-character label of a hash determines its 12-character name suffix. */
  lemma LabelDeterminesSuffix(h: string, k: string)
    requires HashLabelValue(h) == HashLabelValue(k)
    ensures HashNameSuffix(h) == HashNameSuffix(k)
  {
    assert forall s: string :: |s| > 12 ==> Take(Take(s, 63), 12) == Take(s, 12);
    assert HashNameSuffix(h) == Take(HashLabelValue(h), 12);
    assert HashNameSuffix(k) == Take(HashLabelValue(k), 12);
  }

  // ----- Decimal numbers -----

  function Digit(d: nat): char
    requires d < 10
  {
    (d + 48) as char
  }

  function Decimal(n: nat): (r: string)
    ensures r != [] && forall i :: 0 <= i < |r| ==> '0' <= r[i] <= '9'
  {
    if n < 10 then [Digit(n)] else Decimal(n / 10) + [Digit(n % 10)]
  }

  /** The digits of str::parse::<u32>, with its overflow check. */
  function ParseDigits(s: string): Option<nat> {
    if s == [] then Some(0)
    else
      var front, c := ParseDigits(s[..|s| - 1]), s[|s| - 1];
      if front.Some? && '0' <= c <= '9' && front.value * 10 + (c as int - 48) <= MAX_U32
      then Some(front.value * 10 + (c as int - 48))
      else None
  }

  function ParseU32(s: string): Option<nat> {
    var digits := if s != [] && s[0] == '+' then s[1..] else s;
    if digits == [] then None else ParseDigits(digits)
  }

  /** What is parsed consists of digits and fits 32 bits. */
  lemma {:induction false} ParsedFits(s: string)
    ensures ParseDigits(s).Some? ==> ParseDigits(s).value <= MAX_U32 && forall i :: 0 <= i < |s| ==> '0' <= s[i] <= '9'
  {
    if s != [] { ParsedFits(s[..|s| - 1]); }
  }

  lemma {:induction false} ParseDecimal(n: nat)
    requires n <= MAX_U32
    ensures ParseDigits(Decimal(n)) == Some(n)
  {
    if n < 10 {
      assert [Digit(n)][..0] == [];
    } else {
      ParseDecimal(n / 10);
      assert Decimal(n)[..|Decimal(n)| - 1] == Decimal(n / 10);
    }
  }

  lemma {:induction false} DecimalInjective(n: nat, m: nat)
    requires Decimal(n) == Decimal(m)
    ensures n == m
  {
    if n >= 10 && m >= 10 {
      assert Decimal(n)[..|Decimal(n)| - 1] == Decimal(n / 10) && Decimal(m)[..|Decimal(m)| - 1] == Decimal(m / 10);
      DecimalInjective(n / 10, m / 10);
      assert Decimal(n)[|Decimal(n)| - 1] == Digit(n % 10) && Decimal(m)[|Decimal(m)| - 1] == Digit(m % 10);
    } else {
      assert |Decimal(n)| == |Decimal(m)|;
      assert Decimal(n)[0] == Decimal(m)[0];
    }
  }

  /** A number below ten to the k has at most k digits. */
  lemma {:induction false} DecimalLength(n: nat, k: nat)
    requires k > 0 && n < Pow10(k)
    ensures |Decimal(n)| <= k
  {
    if n >= 10 {
      DecimalLength(n / 10, k - 1);
    }
  }

  function Pow10(k: nat): nat {
    if k == 0 then 1 else 10 * Pow10(k - 1)
  }

  // ----- Package Job names -----

  function BoundedNamePreservingSuffix(rawPrefix: string, suffix: string, maxLen: nat): string {
    if |suffix| >= maxLen then BoundedNameOf(suffix, maxLen)
    else BoundedNameOf(rawPrefix, maxLen - |suffix|) + suffix
  }

  function AttemptSuffix(artifactKey: string, attempt: nat): string {
    "-" + HashNameSuffix(artifactKey) + "-a" + Decimal(attempt)
  }

  function PackageJobName(feName: string, artifactKey: string, attempt: nat): string {
    BoundedNamePreservingSuffix("fe-" + feName + "-package", AttemptSuffix(artifactKey, attempt), MAX_NAME)
  }

  /** What follows the last occurrence of "-a". */
  function AfterLastDashA(s: string): (r: Option<string>)
    ensures r.Some? ==> |r.value| + 2 <= |s|
  {
    if |s| < 2 then None
    else
      var rest := AfterLastDashA(s[1..]);
      if rest.Some? then rest else if s[0] == '-' && s[1] == 'a' then Some(s[2..]) else None
  }

  function PackageAttemptFromName(name: string): Option<nat> {
    var tail := AfterLastDashA(name);
    if tail.None? then None
    else
      var attempt := ParseU32(tail.value);
      if attempt.Some? && attempt.value > 0 then attempt else None
  }

  lemma {:induction false} NoDashNoSplit(s: string)
    requires '-' !in s
    ensures AfterLastDashA(s) == None
  {
    if |s| >= 2 {
      NoDashNoSplit(s[1..]);
    }
  }

  lemma {:induction false} SplitAtLastDashA(head: string, tail: string)
    requires '-' !in tail
    ensures AfterLastDashA(head + "-a" + tail) == Some(tail)
  {
    var s := head + "-a" + tail;
    if head == [] {
      assert s[1..] == "a" + tail && s[2..] == tail;
      assert '-' !in s[1..];
      NoDashNoSplit(s[1..]);
    } else {
      SplitAtLastDashA(head[1..], tail);
      assert s[1..] == head[1..] + "-a" + tail;
    }
  }

  /** The suffix always fits, so the attempt is never truncated away. */
  lemma AttemptSuffixFits(artifactKey: string, attempt: nat)
    requires attempt <= MAX_U32
    ensures |AttemptSuffix(artifactKey, attempt)| <= 25
  {
    assert Pow10(10) == 10000000000 by {
      assert Pow10(5) == 100000 by { assert Pow10(2) == 100; }
      assert Pow10(7) == 10000000;
      assert Pow10(9) == 1000000000;
    }
    DecimalLength(attempt, 10);
  }

  /** package_attempt_from_job inverts package_job_name. */
  lemma AttemptRoundTrip(feName: string, artifactKey: string, attempt: nat)
    requires 1 <= attempt <= MAX_U32
    ensures PackageAttemptFromName(PackageJobName(feName, artifactKey, attempt)) == Some(attempt)
  {
    hide BoundedNameOf, HashNameSuffix;
    AttemptSuffixFits(artifactKey, attempt);
    var head := PackageJobHead(feName, artifactKey, attempt);
    PackageJobNameSplit(feName, artifactKey, attempt);
    SplitAtLastDashA(head, Decimal(attempt));
    ParseDecimal(attempt);
    assert Decimal(attempt)[0] != '+';
  }

  function PackageJobHead(feName: string, artifactKey: string, attempt: nat): string
    requires |AttemptSuffix(artifactKey, attempt)| < MAX_NAME
  {
    BoundedNameOf("fe-" + feName + "-package", MAX_NAME - |AttemptSuffix(artifactKey, attempt)|) + "-" + HashNameSuffix(artifactKey)
  }

  lemma PackageJobNameSplit(feName: string, artifactKey: string, attempt: nat)
    requires |AttemptSuffix(artifactKey, attempt)| < MAX_NAME
    ensures PackageJobName(feName, artifactKey, attempt)
            == PackageJobHead(feName, artifactKey, attempt) + "-a" + Decimal(attempt)
  {
    hide BoundedNameOf, HashNameSuffix, Decimal;
    Regroup(
      BoundedNameOf("fe-" + feName + "-package", MAX_NAME - |AttemptSuffix(artifactKey, attempt)|),
      "-", HashNameSuffix(artifactKey), "-a", Decimal(attempt));
  }

  lemma Regroup(a: string, b: string, c: string, d: string, e: string)
    ensures a + (b + c + d + e) == a + b + c + d + e
  {
  }

  ghost predicate HexKey(key: string) {
    forall i :: 0 <= i < |StripSha(key)| ==> '0' <= StripSha(key)[i] <= '9' || 'a' <= StripSha(key)[i] <= 'f'
  }

  /** Package Job names are DNS labels, whatever the extension is called. */
  lemma PackageJobNameIsLabel(feName: string, artifactKey: string, attempt: nat)
    requires attempt <= MAX_U32 && HexKey(artifactKey)
    ensures DnsLabel(PackageJobName(feName, artifactKey, attempt))
  {
    AttemptSuffixFits(artifactKey, attempt);
    var suffix := AttemptSuffix(artifactKey, attempt);
    BoundedNameIsClean("fe-" + feName + "-package", MAX_NAME - |suffix|);
    SuffixChars(artifactKey, attempt);
    JoinIsLabel(BoundedNameOf("fe-" + feName + "-package", MAX_NAME - |suffix|), suffix);
  }

  lemma SuffixChars(artifactKey: string, attempt: nat)
    requires HexKey(artifactKey)
    ensures NameChars(AttemptSuffix(artifactKey, attempt))
    ensures var s := AttemptSuffix(artifactKey, attempt); s[|s| - 1] != '-'
  {
    var hash, digits := HashNameSuffix(artifactKey), Decimal(attempt);
    var s := AttemptSuffix(artifactKey, attempt);
    assert forall i :: 0 <= i < |hash| ==> NameChar(hash[i]);
    assert s[|s| - 1] == digits[|digits| - 1];
  }

  lemma JoinIsLabel(prefix: string, suffix: string)
    requires Clean(prefix) && suffix != [] && NameChars(suffix) && suffix[|suffix| - 1] != '-'
    requires |prefix| + |suffix| <= MAX_NAME
    ensures DnsLabel(prefix + suffix)
  {
  }

  // ----- Publish Job names -----

  function PublishJobName(feName: string, requestHash: string): string {
    BoundedNameOf("fe-" + feName + "-publish-" + HashShort(requestHash), MAX_NAME)
  }

  function UnpublishJobName(feName: string, requestHash: string): string {
    BoundedNameOf("fe-" + feName + "-unpublish-" + HashShort(requestHash), MAX_NAME)
  }

  /** bounded_name of a clean head followed by anything keeps a head that already fills the bound. */
  lemma {:induction false} LongHeadWins(head: string, tail: string, maxLen: nat)
    requires NameChars(head) && NoRuns(head) && head != [] && head[0] != '-' && 0 < maxLen <= |head|
    ensures BoundedNameOf(head + tail, maxLen) == TrimEndDash(head[..maxLen])
  {
    var raw := head + tail;
    var s := Sanitize(raw);
    assert s[..|head|] == head by {
      forall i | 0 <= i < |head| ensures s[i] == head[i] { assert NameChar(head[i]); }
    }
    SqueezePrefix(head, s[|head|..]);
    assert s == head + s[|head|..];
    var q := Squeeze(s);
    assert head <= q && q[0] == head[0] != '-';
    assert TrimStartDash(q) == q;
    var c := TrimEndDash(q);
    TrimBoth(q, c, head, maxLen);
  }

  lemma {:induction false} SqueezePrefix(head: string, tail: string)
    requires NoRuns(head)
    ensures head <= Squeeze(head + tail)
  {
    if tail == [] {
      assert head + tail == head;
      SqueezeNothing(head);
    } else {
      SqueezePrefix(head, tail[..|tail| - 1]);
      assert (head + tail)[..|head + tail| - 1] == head + tail[..|tail| - 1];
    }
  }

  lemma TrimBoth(q: string, c: string, head: string, maxLen: nat)
    requires head <= q && c == TrimEndDash(q) && head != [] && head[0] != '-' && 0 < maxLen <= |head|
    ensures c != [] && Bound(c, maxLen) == TrimEndDash(head[..maxLen])
  {
    assert q[0] == head[0];
    if |c| <= maxLen {
      assert forall i :: |c| <= i < maxLen ==> head[..maxLen][i] == q[i] == '-';
      TrimEndAt(head[..maxLen], c);
    } else {
      assert c[..maxLen] == head[..maxLen];
      assert head[..maxLen][0] != '-';
    }
  }

  lemma {:induction false} TrimEndAt(s: string, c: string)
    requires c <= s && c != [] && c[|c| - 1] != '-' && forall i :: |c| <= i < |s| ==> s[i] == '-'
    ensures TrimEndDash(s) == c
  {
    if |s| > |c| {
      TrimEndAt(s[..|s| - 1], c);
    }
  }

  /** A head within the bound that does not end in a hyphen survives in full. */
  lemma HeadKept(head: string, tail: string, maxLen: nat)
    requires NameChars(head) && NoRuns(head) && head != [] && NoEdgeDash(head) && |head| <= maxLen
    ensures head <= BoundedNameOf(head + tail, maxLen)
  {
    hide SanitizeChar, Squeeze;
    var s := Sanitize(head + tail);
    assert s == head + s[|head|..] by {
      forall i | 0 <= i < |head| ensures s[i] == head[i] { NameCharKept(head[i]); }
    }
    SqueezePrefix(head, s[|head|..]);
    var q := Squeeze(s);
    TrimKeepsHead(q, head);
    assert TrimStartDash(q) == q;
    var c := TrimEndDash(q);
    if |c| > maxLen { TrimKeepsHead(c[..maxLen], head); }
  }

  lemma NameCharKept(c: char)
    requires NameChar(c)
    ensures SanitizeChar(c) == c
  {
  }

  lemma TrimKeepsHead(s: string, head: string)
    requires head <= s && head != [] && NoEdgeDash(head)
    ensures s[0] != '-' && head <= TrimEndDash(s)
  {
    assert s[|head| - 1] == head[|head| - 1];
  }

  /** What stands between the extension's name and the request hash. */
  ghost predicate Infix(kind: string) {
    |kind| >= 2 && NameChars(kind) && NoRuns(kind) && kind[0] == '-' && kind[|kind| - 1] == '-'
  }

  lemma JoinClean(a: string, b: string)
    requires NameChars(a) && NoRuns(a) && NameChars(b) && NoRuns(b)
    requires a != [] && b != [] && (a[|a| - 1] != '-' || b[0] != '-')
    ensures NameChars(a + b) && NoRuns(a + b)
    ensures (a + b)[0] == a[0] && (a + b)[|a + b| - 1] == b[|b| - 1]
  {
  }

  lemma HeadClean(feName: string, kind: string)
    requires Clean(feName) && Infix(kind)
    ensures var head := "fe-" + feName + kind;
      NameChars(head) && NoRuns(head) && |head| == 3 + |feName| + |kind| && head[0] == 'f' && head[|head| - 1] == '-'
  {
    JoinClean("fe-", feName);
    JoinClean("fe-" + feName, kind);
  }

  lemma CleanCompact(s: string)
    requires Clean(s)
    ensures Compact(s) == s
  {
    SanitizeNothing(s);
    SqueezeNothing(s);
    TrimNothing(s);
  }

  /** What remains of a request hash behind a head that leaves room for some of it. */
  lemma CutHash(head: string, hash: string, maxLen: nat)
    requires NameChars(head) && NoRuns(head) && head != [] && head[0] != '-' && |head| < maxLen
    requires hash != [] && NameChars(hash) && '-' !in hash
    ensures BoundedNameOf(head + hash, maxLen) == head + Take(hash, maxLen - |head|)
  {
    hide Compact, TrimEndDash, NameChars, NoRuns;
    var raw := head + hash;
    NoHyphens(hash);
    JoinClean(head, hash);
    CleanCompact(raw);
    if |raw| > maxLen {
      TakeBehind(head, hash, maxLen);
      TrimNoDash(raw[..maxLen]);
    }
  }

  lemma NoHyphens(s: string)
    requires '-' !in s
    ensures NoRuns(s)
  {
  }

  lemma TakeBehind(head: string, hash: string, maxLen: nat)
    requires |head| < maxLen < |head| + |hash| && '-' !in hash
    ensures (head + hash)[..maxLen] == head + hash[..maxLen - |head|] && (head + hash)[maxLen - 1] != '-'
  {
  }

  lemma TrimNoDash(s: string)
    requires s != [] && s[|s| - 1] != '-'
    ensures TrimEndDash(s) == s
  {
  }

  lemma ShortHashChars(hash: string)
    requires HexKey(hash) && StripSha(hash) != []
    ensures HashShort(hash) != [] && NameChars(HashShort(hash)) && '-' !in HashShort(hash)
  {
    var s := StripSha(hash);
    assert forall i :: 0 <= i < |HashShort(hash)| ==> HashShort(hash)[i] == s[i];
  }

  /** Two requests share a name exactly when the part of their hashes that fits is the same. */
  lemma HashesShareName(feName: string, kind: string, h: string, k: string)
    requires Clean(feName) && Infix(kind)
    requires HexKey(h) && StripSha(h) != [] && HexKey(k) && StripSha(k) != []
    ensures var head, room := "fe-" + feName + kind, MAX_NAME - 3 - |kind| - |feName|;
      BoundedNameOf(head + HashShort(h), MAX_NAME) == BoundedNameOf(head + HashShort(k), MAX_NAME)
      <==> room <= 0 || Take(HashShort(h), room) == Take(HashShort(k), room)
  {
    hide BoundedNameOf, HashShort, HexKey, TrimEndDash, Take, NameChars, NoRuns;
    var head, room := "fe-" + feName + kind, MAX_NAME - 3 - |kind| - |feName|;
    HeadClean(feName, kind);
    if room <= 0 {
      LongHeadWins(head, HashShort(h), MAX_NAME);
      LongHeadWins(head, HashShort(k), MAX_NAME);
    } else {
      ShortHashChars(h);
      ShortHashChars(k);
      CutHash(head, HashShort(h), MAX_NAME);
      CutHash(head, HashShort(k), MAX_NAME);
      SameTail(head, Take(HashShort(h), room), Take(HashShort(k), room));
    }
  }

  lemma SameTail(head: string, a: string, b: string)
    ensures head + a == head + b <==> a == b
  {
    if head + a == head + b { assert a == (head + a)[|head|..] == b; }
  }

  /**
   Publish requests of one extension share a Job name exactly when their hashes
   agree on what fits behind the extension's name: all eight characters up to a
   name of 43, none from 51 on.
   */
  lemma PublishNamesCollide(feName: string, h: string, k: string)
    requires Clean(feName) && HexKey(h) && StripSha(h) != [] && HexKey(k) && StripSha(k) != []
    ensures PublishJobName(feName, h) == PublishJobName(feName, k)
      <==> |feName| >= 51 || Take(HashShort(h), 51 - |feName|) == Take(HashShort(k), 51 - |feName|)
  {
    hide BoundedNameOf, HashShort, HexKey, Take;
    HashesShareName(feName, "-publish-", h, k);
  }

  /** The same for unpublish requests, two characters earlier. */
  lemma UnpublishNamesCollide(feName: string, h: string, k: string)
    requires Clean(feName) && HexKey(h) && StripSha(h) != [] && HexKey(k) && StripSha(k) != []
    ensures UnpublishJobName(feName, h) == UnpublishJobName(feName, k)
      <==> |feName| >= 49 || Take(HashShort(h), 49 - |feName|) == Take(HashShort(k), 49 - |feName|)
  {
    hide BoundedNameOf, HashShort, HexKey, Take;
    HashesShareName(feName, "-unpublish-", h, k);
  }

  /** A publish Job and an unpublish Job share a name, whatever their requests, exactly from a name of 59 on. */
  lemma KindsShareName(feName: string, h: string, k: string)
    requires Clean(feName)
    ensures PublishJobName(feName, h) == UnpublishJobName(feName, k) <==> |feName| >= 59
  {
    hide BoundedNameOf, HashShort;
    var head := "fe-" + feName + "-";
    var p, u := "publish-" + HashShort(h), "unpublish-" + HashShort(k);
    assert "fe-" + feName + "-publish-" + HashShort(h) == head + p;
    assert "fe-" + feName + "-unpublish-" + HashShort(k) == head + u;
    JoinClean("fe-", feName);
    JoinClean("fe-" + feName, "-");
    if |feName| >= 59 {
      LongHeadWins(head, p, MAX_NAME);
      LongHeadWins(head, u, MAX_NAME);
    } else {
      KindsDiffer(head, p, u, MAX_NAME);
    }
  }

  lemma KindsDiffer(head: string, p: string, u: string, maxLen: nat)
    requires NameChars(head) && NoRuns(head) && head != [] && head[0] != '-' && |head| < maxLen
    requires p != [] && u != [] && p[0] == 'p' && u[0] == 'u'
    ensures BoundedNameOf(head + p, maxLen) != BoundedNameOf(head + u, maxLen)
  {
    hide BoundedNameOf, NameChars, NoRuns;
    LetterKept(head, p, maxLen);
    LetterKept(head, u, maxLen);
    assert BoundedNameOf(head + p, maxLen)[|head|] == (head + [p[0]])[|head|];
    assert BoundedNameOf(head + u, maxLen)[|head|] == (head + [u[0]])[|head|];
  }

  lemma LetterKept(head: string, tail: string, maxLen: nat)
    requires NameChars(head) && NoRuns(head) && head != [] && head[0] != '-' && |head| < maxLen
    requires tail != [] && 'a' <= tail[0] <= 'z'
    ensures head + [tail[0]] <= BoundedNameOf(head + tail, maxLen)
  {
    hide BoundedNameOf;
    var letter := [tail[0]];
    JoinClean(head, letter);
    HeadKept(head + letter, tail[1..], maxLen);
    assert head + letter + tail[1..] == head + tail;
  }

  // ----- Names that are not cut -----

  /** A key or hash of the usual form: "sha256:" and hexadecimal digits. */
  ghost predicate Sha256(hash: string, digits: string) {
    hash == "sha256:" + digits && |digits| >= 12 && forall i :: 0 <= i < |digits| ==> '0' <= digits[i] <= '9' || 'a' <= digits[i] <= 'f'
  }

  lemma StripsPrefix(hash: string, digits: string)
    requires Sha256(hash, digits)
    ensures StripSha(hash) == digits && HexKey(hash)
  {
    assert hash[|SHA256_PREFIX|..] == digits;
  }

  /** Names of short extensions, spelled out. */
  lemma ShortNamesInFull(feName: string, hash: string, digits: string, attempt: nat)
    requires Clean(feName) && |feName| <= 27 && Sha256(hash, digits) && attempt <= MAX_U32
    ensures PackageJobName(feName, hash, attempt) == "fe-" + feName + "-package-" + digits[..12] + "-a" + Decimal(attempt)
    ensures PublishJobName(feName, hash) == "fe-" + feName + "-publish-" + digits[..8]
    ensures UnpublishJobName(feName, hash) == "fe-" + feName + "-unpublish-" + digits[..8]
  {
    hide BoundedNameOf, Clean, HexKey;
    StripsPrefix(hash, digits);
    ShortHashChars(hash);
    HeadClean(feName, "-publish-");
    HeadClean(feName, "-unpublish-");
    CutHash("fe-" + feName + "-publish-", digits[..8], MAX_NAME);
    CutHash("fe-" + feName + "-unpublish-", digits[..8], MAX_NAME);
    ShortPackageName(feName, hash, digits, attempt);
  }

  lemma ShortPackageName(feName: string, hash: string, digits: string, attempt: nat)
    requires Clean(feName) && |feName| <= 27 && Sha256(hash, digits) && attempt <= MAX_U32
    ensures PackageJobName(feName, hash, attempt) == "fe-" + feName + "-package-" + digits[..12] + "-a" + Decimal(attempt)
  {
    hide BoundedNameOf, HexKey, Decimal, Clean, NameChars, NoRuns;
    StripsPrefix(hash, digits);
    AttemptSuffixFits(hash, attempt);
    PackageJobNameSplit(feName, hash, attempt);
    PackageHeadClean(feName);
    CleanIsFixed("fe-" + feName + "-package", MAX_NAME - |AttemptSuffix(hash, attempt)|);
    Regroup3("fe-" + feName + "-package", "-", digits[..12], "-a" + Decimal(attempt));
  }

  lemma PackageHeadClean(feName: string)
    requires Clean(feName)
    ensures Clean("fe-" + feName + "-package")
  {
    JoinClean("fe-", feName);
    JoinClean("fe-" + feName, "-package");
  }

  lemma Regroup3(a: string, b: string, c: string, d: string)
    ensures a + b + c + d == a + (b + c) + d
  {
  }

  lemma ExtensionPrefixClean(name: string)
    requires Clean(name)
    ensures Clean("fe-" + name)
  {
    JoinClean("fe-", name);
  }

  /** Only the prefix is stripped, once, and a hash without it is left alone. */
  lemma StripsOnlyPrefix(hash: string)
    ensures StripSha("sha256:" + hash) == hash
    ensures StripSha(hash) == hash || hash == "sha256:" + StripSha(hash)
  {
    assert ("sha256:" + hash)[|SHA256_PREFIX|..] == hash;
    if SHA256_PREFIX <= hash { assert hash == hash[..|SHA256_PREFIX|] + hash[|SHA256_PREFIX|..]; }
  }

  /** The pieces of a hash that names and labels carry. */
  lemma HashPieces(hash: string, digits: string)
    requires Sha256(hash, digits)
    ensures HashShort(hash) == digits[..8] && HashNameSuffix(hash) == digits[..12]
    ensures HashLabelValue(hash) == if |digits| <= 63 then digits else digits[..63]
  {
    StripsPrefix(hash, digits);
  }

  /** A name that keeps its suffix: in full if it fits, else with its start cut to make room. */
  lemma SuffixIsKept(prefix: string, suffix: string, maxLen: nat)
    requires Clean(prefix) && |suffix| < maxLen
    ensures var name := BoundedNamePreservingSuffix(prefix, suffix, maxLen);
      && |name| <= maxLen && (|prefix| + |suffix| <= maxLen ==> name == prefix + suffix)
      && exists head :: Clean(head) && name == head + suffix
  {
    hide BoundedNameOf, Clean;
    BoundedNameIsClean(prefix, maxLen - |suffix|);
    if |prefix| + |suffix| <= maxLen { CleanIsFixed(prefix, maxLen - |suffix|); }
  }

  function Letters(n: nat): (s: string)
    ensures |s| == n
  {
    seq(n, _ => 'a')
  }

  /** A name of 51 letters, two different requests and one publish Job name; at 59 an unpublish shares it too. */
  lemma OneJobForTwoRequests()
    ensures var h, k := "sha256:00000000", "sha256:11111111";
      && Clean(Letters(51)) && HashShort(h) != HashShort(k)
      && PublishJobName(Letters(51), h) == PublishJobName(Letters(51), k) != UnpublishJobName(Letters(51), k)
      && PublishJobName(Letters(59), h) == UnpublishJobName(Letters(59), k)
  {
    hide BoundedNameOf, Letters;
    var h, k := "sha256:00000000", "sha256:11111111";
    LettersClean(51);
    LettersClean(59);
    assert HashShort(h) == "00000000" && HashShort(k) == "11111111";
    assert HashShort(h)[0] != HashShort(k)[0];
    PublishNamesCollide(Letters(51), h, k);
    KindsShareName(Letters(51), k, k);
    KindsShareName(Letters(59), h, k);
  }

  lemma LettersClean(n: nat)
    requires n > 0
    ensures Clean(Letters(n))
  {
  }
}
