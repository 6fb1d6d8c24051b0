/** Policy that both failure-capture workers share, written out once: the
    buffer bound, the debounce window, the ignore list, the hostname clean-up
    and IP-literal tests, the debounce key and gate, and how a webRequest
    event becomes an error string. */
module Signals {
  import opened Wrappers
  import opened Text

  /** `new URL(url).hostname`: the hostname, or None where the constructor throws.
      The URL parser itself is not part of this model, so every operation takes it
      as a parameter and nothing is assumed about it. */
  type UrlParser = string -> Option<string>

  /** `MAX` / `MAX_BUFFER`: the most entries a buffer keeps. */
  const MAX_RECORDS: nat := 200

  /** `4000` / `DEBOUNCE_MS`: the debounce window in milliseconds. */
  const DEBOUNCE_MS: int := 4000

  /** Tracking and analytics hosts that are never recorded. */
  const IGNORE: seq<string> :=
    ["sentry.io", "googletagmanager.com", "doubleclick.net", "facebook.net", "scorecardresearch.com", "adsystem"]

  /** `IGNORE.some(p => host.includes(p))`: some ignore-list entry occurs in `host`. */
  predicate ShouldIgnore(host: string) {
    exists p :: p in IGNORE && Contains(host, p)
  }

  /** A host in which no ignore-list entry occurs is not ignored. */
  lemma NoIgnoreEntry(host: string)
    requires forall i :: 0 <= i < |IGNORE| ==> !Contains(host, IGNORE[i])
    ensures !ShouldIgnore(host)
  {
  }

  /** `shouldIgnore(host)` holds exactly when some ignore-list entry occurs in
      `host` at some offset. */
  lemma {:induction false} ShouldIgnoreOccurs(host: string)
    ensures ShouldIgnore(host) <==> exists i: nat, k: nat :: i < |IGNORE| && OccursAt(host, IGNORE[i], k)
  {
    if ShouldIgnore(host) {
      var p :| p in IGNORE && Contains(host, p);
      var i :| 0 <= i < |IGNORE| && IGNORE[i] == p;
      var k := ContainsOccurs(host, p);
      assert OccursAt(host, IGNORE[i], k);
    }
    if exists i: nat, k: nat :: i < |IGNORE| && OccursAt(host, IGNORE[i], k) {
      var i: nat, k: nat :| i < |IGNORE| && OccursAt(host, IGNORE[i], k);
      ContainsAt(host, IGNORE[i], k);
      assert IGNORE[i] in IGNORE;
    }
  }

  /** Removes one leading `www.`, if there is one. */
  function StripWww(host: string): (r: string)
    ensures host == r || host == "www." + r
    ensures StartsWith(host, "www.") ==> host == "www." + r
  {
    if StartsWith(host, "www.") then host[4..] else host
  }

  /** The lower-cased hostname with one leading `www.` removed, the form both
      normalizers go on to test. */
  function Canonical(hostname: string): (r: string)
    ensures IsLower(r)
    ensures |r| <= |hostname|
  {
    var lower := Lower(hostname);
    assert forall i :: 0 <= i < |lower| - 4 ==> lower[4..][i] == lower[i + 4];
    StripWww(lower)
  }

  /** A lower-case host without a leading `www.` is its own canonical form. */
  lemma CanonicalFixed(h: string)
    requires IsLower(h) && !StartsWith(h, "www.")
    ensures Canonical(h) == h
  {
  }

  /** Only the `www.` prefix is removed from a lower-case host. */
  lemma CanonicalStripsWww(h: string)
    requires IsLower(h)
    ensures Canonical("www." + h) == h
  {
    var s := "www." + h;
    assert IsLower(s);
    assert s[..4] == "www.";
    assert s[4..] == h;
  }

  /** `s.split(sep)`: the fields between separators, always at least one. */
  function Split(s: string, sep: char): (r: seq<string>)
    ensures |r| >= 1
    decreases |s|
  {
    if s == [] then [""]
    else
      var rest := Split(s[1..], sep);
      if s[0] == sep then [""] + rest else [[s[0]] + rest[0]] + rest[1..]
  }

  /** One to three decimal digits: `\d{1,3}`. */
  predicate IsOctet(t: string) {
    1 <= |t| <= 3 && forall i :: 0 <= i < |t| ==> IsDigit(t[i])
  }

  /** The dotted IPv4 pattern, four runs of one to three digits joined by dots. The
      two workers write it as `^(\d{1,3}\.){3}\d{1,3}$` and `^\d{1,3}(\.\d{1,3}){3}$`;
      both denote this language. */
  predicate IsDottedQuad(host: string) {
    var fields := Split(host, '.');
    |fields| == 4 && forall k :: 0 <= k < 4 ==> IsOctet(fields[k])
  }

  /** The first field of a split is a prefix of the string. */
  lemma {:induction false} SplitHeadPrefix(s: string, sep: char)
    ensures |Split(s, sep)[0]| <= |s| && Split(s, sep)[0] == s[..|Split(s, sep)[0]|]
    decreases |s|
  {
    if s != [] && s[0] != sep {
      SplitHeadPrefix(s[1..], sep);
    }
  }

  /** A text without the separator is a single field. */
  lemma {:induction false} SplitNoSep(a: string, sep: char)
    requires sep !in a
    ensures Split(a, sep) == [a]
    decreases |a|
  {
    if a != [] {
      SplitNoSep(a[1..], sep);
      assert [a[0]] + a[1..] == a;
    }
  }

  /** The text before the first separator is the first field. */
  lemma {:induction false} SplitField(a: string, rest: string, sep: char)
    requires sep !in a
    ensures Split(a + [sep] + rest, sep) == [a] + Split(rest, sep)
    decreases |a|
  {
    var s := a + [sep] + rest;
    if a == [] {
      assert s[0] == sep && s[1..] == rest;
    } else {
      SplitField(a[1..], rest, sep);
      assert s[0] == a[0] && s[1..] == a[1..] + [sep] + rest;
      assert [a[0]] + a[1..] == a;
    }
  }

  /** Four octets joined by dots form a dotted quad. */
  lemma OctetsMakeQuad(a: string, b: string, c: string, d: string)
    requires IsOctet(a) && IsOctet(b) && IsOctet(c) && IsOctet(d)
    ensures IsDottedQuad(a + "." + b + "." + c + "." + d)
  {
    var t3 := c + ['.'] + d;
    var t2 := b + ['.'] + t3;
    var t1 := a + ['.'] + t2;
    var fields := [a, b, c, d];
    assert Split(t1, '.') == fields by {
      assert '.' !in a && '.' !in b && '.' !in c && '.' !in d;
      SplitNoSep(d, '.');
      SplitField(c, d, '.');
      SplitField(b, t3, '.');
      SplitField(a, t2, '.');
    }
    assert t1 == a + "." + b + "." + c + "." + d;
    assert forall k :: 0 <= k < 4 ==> IsOctet(fields[k]);
  }

  /** `fields.join(sep)`. */
  function Join(fields: seq<string>, sep: char): string
    requires |fields| >= 1
    decreases |fields|
  {
    if |fields| == 1 then fields[0] else fields[0] + [sep] + Join(fields[1..], sep)
  }

  /** Joining the fields of a split with the separator gives the text back. */
  lemma {:induction false} SplitJoin(s: string, sep: char)
    ensures Join(Split(s, sep), sep) == s
    decreases |s|
  {
    if s != [] {
      SplitJoin(s[1..], sep);
      var rest := Split(s[1..], sep);
      if s[0] == sep {
        assert ([""] + rest)[1..] == rest;
        assert [sep] + s[1..] == s;
      } else {
        var f := [[s[0]] + rest[0]] + rest[1..];
        assert f[1..] == rest[1..];
        assert [s[0]] + s[1..] == s;
      }
    }
  }

  /** Conversely to OctetsMakeQuad, every dotted quad is its four octets joined by
      dots. */
  lemma DottedQuadFields(host: string)
    requires IsDottedQuad(host)
    ensures var f := Split(host, '.');
      host == f[0] + "." + f[1] + "." + f[2] + "." + f[3]
      && IsOctet(f[0]) && IsOctet(f[1]) && IsOctet(f[2]) && IsOctet(f[3])
  {
    var f := Split(host, '.');
    SplitJoin(host, '.');
    var t2 := f[1..][1..];
    assert t2[1..] == [f[3]];
    assert Join(t2, '.') == f[2] + ['.'] + f[3];
    assert Join(f[1..], '.') == f[1] + ['.'] + (f[2] + ['.'] + f[3]);
    assert Join(f, '.') == f[0] + "." + f[1] + "." + f[2] + "." + f[3];
    assert IsOctet(f[0]) && IsOctet(f[1]) && IsOctet(f[2]) && IsOctet(f[3]);
  }

  /** A dotted quad starts with a digit, so no host that starts otherwise is one. */
  lemma DottedQuadStartsWithDigit(host: string)
    requires IsDottedQuad(host)
    ensures |host| > 0 && IsDigit(host[0])
  {
    SplitHeadPrefix(host, '.');
    assert IsOctet(Split(host, '.')[0]);
  }

  predicate IsHexOrColon(c: char) {
    IsDigit(c) || 'a' <= c <= 'f' || c == ':'
  }

  /** `^\[[0-9a-f:]+\]$`: a bracketed IPv6 literal. */
  predicate IsBracketedHex(host: string) {
    |host| >= 3 && host[0] == '[' && host[|host| - 1] == ']'
    && forall i :: 1 <= i < |host| - 1 ==> IsHexOrColon(host[i])
  }

  /** `^\[[0-9a-f:]+\]$` matches a bracketed text exactly when what is inside the
      brackets is a non-empty run of lower-case hex digits and colons. */
  lemma BracketedHexOf(m: string)
    ensures IsBracketedHex("[" + m + "]") <==> m != [] && forall i :: 0 <= i < |m| ==> IsHexOrColon(m[i])
  {
    var h := "[" + m + "]";
    assert forall i :: 0 <= i < |m| ==> h[i + 1] == m[i];
    if m != [] && forall i :: 0 <= i < |m| ==> IsHexOrColon(m[i]) {
      assert forall i :: 1 <= i < |h| - 1 ==> h[i] == m[i - 1];
    }
  }

  /** The debounce key `host + '|' + error`. */
  function DebounceKey(host: string, error: string): string {
    host + "|" + error
  }

  /** Keys are per (host, error) pair: two pairs share a key only if they are the
      same pair. Hosts cannot hold `|`, which URL hostnames never contain. */
  lemma {:induction false} DebounceKeyInjective(h1: string, e1: string, h2: string, e2: string)
    requires '|' !in h1 && '|' !in h2
    requires DebounceKey(h1, e1) == DebounceKey(h2, e2)
    ensures h1 == h2 && e1 == e2
  {
    var k := DebounceKey(h1, e1);
    assert k[|h1|] == '|' && k[|h2|] == '|';
    assert h1 == k[..|h1|] == h2;
    assert e1 == k[|h1| + 1..] == e2;
  }

  /** `map.get(key) || 0`: the last admitted time, a missing key read as 0. */
  function LastAdmitted(m: map<string, int>, key: string): int {
    if key in m then m[key] else 0
  }

  /** `now - last < 4000`: the signal falls inside the window of the last admission. */
  predicate Suppressed(m: map<string, int>, key: string, now: int) {
    now - LastAdmitted(m, key) < DEBOUNCE_MS
  }

  /** The gate reads a pair's last admission, or 0 for a pair never admitted: a
      known pair is suppressed exactly until 4000 ms after its admission, a fresh
      pair exactly while the clock reads below 4000. */
  lemma DebounceGate(m: map<string, int>, key: string, now: int)
    ensures key in m ==> (Suppressed(m, key, now) <==> now < m[key] + DEBOUNCE_MS)
    ensures key !in m ==> (Suppressed(m, key, now) <==> now < DEBOUNCE_MS)
  {
  }

  /** Once a key is admitted at `t`, the same key is suppressed exactly until
      `t + 4000`, and no other key's verdict changes. */
  lemma DebounceWindow(m: map<string, int>, key: string, t: int, other: string, now: int)
    requires other != key
    ensures Suppressed(m[key := t], key, now) <==> now < t + DEBOUNCE_MS
    ensures Suppressed(m[key := t], other, now) == Suppressed(m, other, now)
  {
  }

  /** `s.slice(-n)` applied when `s.length > n`: the newest `n` entries. The bound
      is positive, as `slice(-0)` would keep the whole list. */
  function KeepLast<T>(s: seq<T>, n: nat): (r: seq<T>)
    requires n > 0
    ensures |r| <= n && |r| <= |s|
    ensures |s| <= n ==> r == s
    ensures |s| > n ==> |r| == n
    ensures r == s[|s| - |r|..]
  {
    if |s| > n then s[|s| - n..] else s
  }

  /** One webRequest event: the request URL, the status code of a completed
      request and the error text of a failed one. */
  datatype RequestDetails = RequestDetails(url: string, statusCode: Option<int>, error: Option<string>)

  /** `details.error || 'error'`: the error text, `error` when it is missing or empty. */
  function ErrorText(details: RequestDetails): (err: string)
    ensures err != ""
    ensures details.error.Some? && details.error.value != "" ==> err == details.error.value
    ensures details.error.None? || details.error.value == "" ==> err == "error"
  {
    if details.error.Some? && details.error.value != "" then details.error.value else "error"
  }

  /** `String(details.statusCode)` for a completed request with a status of 400 or
      more; None for every other completed request. */
  function StatusError(details: RequestDetails): (err: Option<string>)
    ensures err.Some? <==> details.statusCode.Some? && details.statusCode.value >= 400
    ensures err.Some? ==> err.value == DecimalString(details.statusCode.value)
  {
    match details.statusCode
    case Some(code) => if code >= 400 then Some(DecimalString(code)) else None
    case None => None
  }

  /** Two failing status codes are distinct errors, so they are debounced apart. */
  lemma StatusErrorsDistinct(d1: RequestDetails, d2: RequestDetails)
    requires StatusError(d1).Some? && StatusError(d2).Some?
    requires d1.statusCode != d2.statusCode
    ensures StatusError(d1) != StatusError(d2)
  {
    if StatusError(d1) == StatusError(d2) {
      DecimalStringInjective(d1.statusCode.value, d2.statusCode.value);
    }
  }
}
