/** The merge-style failure ledger of omega-target-chromium-extension/overlay/x-background.js.
    One record per host, moved to the end on every update and counted in `hits`;
    the buffer keeps the newest 200 records. The popup reads the list as last saved,
    newest first, clears it, and prunes the hosts it managed to add to the proxy. */
module XBackground {
  import opened Wrappers
  import opened Text
  import opened Signals

  /** One remembered host. `hits` may be missing in records restored from storage. */
  datatype FailureRecord = FailureRecord(host: string, lastError: string, lastSeen: int, hits: Option<int>)

  /** `rec.hits || 0`. */
  function HitCount(r: FailureRecord): int {
    match r.hits
    case Some(n) => n
    case None => 0
  }

  /** No host appears twice. */
  predicate Unique(buf: seq<FailureRecord>) {
    forall i, j :: 0 <= i < j < |buf| ==> buf[i].host != buf[j].host
  }

  /** What `normalize` lets through: not a dotted IPv4 literal, no colon, nothing from the ignore list. */
  predicate Admissible(host: string) {
    !IsDottedQuad(host) && ':' !in host && !ShouldIgnore(host)
  }

  // ---------------------------------------------------------------- normalize

  /** `normalize(url)`: the lower-cased hostname without one leading `www.`, or None
      when the URL does not parse or the host is an IP literal, holds a colon or
      contains an ignore-list entry. */
  function Normalize(parse: UrlParser, url: string): (r: Option<string>)
    ensures r.Some? ==> parse(url).Some? && r.value == Canonical(parse(url).value)
    ensures r.Some? ==> IsLower(r.value) && !IsDottedQuad(r.value) && ':' !in r.value && !ShouldIgnore(r.value)
    ensures parse(url).Some? && Admissible(Canonical(parse(url).value)) ==> r.Some?
  {
    match parse(url)
    case None => None
    case Some(hostname) =>
      var host := Canonical(hostname);
      if IsDottedQuad(host) then None
      else if ':' in host then None
      else if ShouldIgnore(host) then None
      else Some(host)
  }

  // ---------------------------------------------------------------- record

  /** `buffer.findIndex(r => r.host === host)`: the first index holding `host`, or -1. */
  function FindHost(buf: seq<FailureRecord>, host: string): (i: int)
    ensures -1 <= i < |buf|
    ensures 0 <= i ==> buf[i].host == host
    decreases |buf|
  {
    if buf == [] then -1
    else if buf[0].host == host then 0
    else
      var j := FindHost(buf[1..], host);
      if j < 0 then -1 else j + 1
  }

  /** The index found is the first record for `host`, and -1 means there is none. */
  lemma {:induction false} FindHostFirst(buf: seq<FailureRecord>, host: string)
    ensures var i := FindHost(buf, host);
      (0 <= i ==> forall j :: 0 <= j < i ==> buf[j].host != host)
      && (i == -1 <==> forall j :: 0 <= j < |buf| ==> buf[j].host != host)
    decreases |buf|
  {
    if buf != [] && buf[0].host != host {
      FindHostFirst(buf[1..], host);
      assert forall j :: 1 <= j < |buf| ==> buf[j] == buf[1..][j - 1];
    }
  }

  /** The hit count `host` had before a new signal: 0 for a host not in the buffer. */
  function PriorHits(buf: seq<FailureRecord>, host: string): int {
    var i := FindHost(buf, host);
    if i >= 0 then HitCount(buf[i]) else 0
  }

  /** The buffer after `record`'s splice and push, before the trim: the updated
      record for `host` is last. */
  function Merged(buf: seq<FailureRecord>, host: string, error: string, now: int): (r: seq<FailureRecord>)
    ensures |r| >= 1 && r[|r| - 1] == FailureRecord(host, error, now, Some(PriorHits(buf, host) + 1))
    ensures |r| >= |buf|
  {
    var i := FindHost(buf, host);
    var rec := FailureRecord(host, error, now, Some(PriorHits(buf, host) + 1));
    if i >= 0 then buf[..i] + buf[i + 1..] + [rec] else buf + [rec]
  }

  /** Before the updated record the merge holds only records of the old buffer, and
      no record of another host is lost. */
  lemma MergedKeepsOthers(buf: seq<FailureRecord>, host: string, error: string, now: int)
    ensures var r := Merged(buf, host, error, now);
      multiset(r[..|r| - 1]) <= multiset(buf)
      && forall x :: x in buf && x.host != host ==> x in r
  {
    var i := FindHost(buf, host);
    var r := Merged(buf, host, error, now);
    if i >= 0 {
      assert buf == buf[..i] + [buf[i]] + buf[i + 1..];
      assert r[..|r| - 1] == buf[..i] + buf[i + 1..];
    } else {
      assert r[..|r| - 1] == buf;
    }
  }

  /** The buffer after `record(host, error)` at time `now`: at most 200 records, and
      the last one is the updated record for `host`, seen at `now`, with the given
      error and one more hit than before. */
  function Recorded(buf: seq<FailureRecord>, host: string, error: string, now: int): (r: seq<FailureRecord>)
    ensures 1 <= |r| <= MAX_RECORDS
    ensures r[|r| - 1] == FailureRecord(host, error, now, Some(PriorHits(buf, host) + 1))
    ensures |r| >= |buf| || |r| == MAX_RECORDS
  {
    KeepLast(Merged(buf, host, error, now), MAX_RECORDS)
  }

  /** The records whose host is not in `drop`, in their order. */
  function Keep(buf: seq<FailureRecord>, drop: set<string>): (r: seq<FailureRecord>)
    ensures |r| <= |buf|
    decreases |buf|
  {
    if buf == [] then []
    else (if buf[0].host in drop then [] else [buf[0]]) + Keep(buf[1..], drop)
  }

  lemma {:induction false} KeepMembers(buf: seq<FailureRecord>, drop: set<string>)
    ensures forall x :: x in Keep(buf, drop) <==> x in buf && x.host !in drop
    decreases |buf|
  {
    if buf != [] {
      KeepMembers(buf[1..], drop);
      assert buf == [buf[0]] + buf[1..];
    }
  }

  lemma {:induction false} KeepNothing(buf: seq<FailureRecord>, drop: set<string>)
    requires forall j :: 0 <= j < |buf| ==> buf[j].host !in drop
    ensures Keep(buf, drop) == buf
    decreases |buf|
  {
    if buf != [] {
      KeepNothing(buf[1..], drop);
    }
  }

  lemma {:induction false} KeepUnique(buf: seq<FailureRecord>, drop: set<string>)
    requires Unique(buf)
    ensures Unique(Keep(buf, drop))
    decreases |buf|
  {
    if buf != [] {
      var rest := Keep(buf[1..], drop);
      KeepUnique(buf[1..], drop);
      KeepMembers(buf[1..], drop);
      forall x | x in rest ensures x.host != buf[0].host {
        var j :| 0 <= j < |buf[1..]| && buf[1..][j] == x;
        assert buf[j + 1] == x;
      }
    }
  }

  lemma {:induction false} KeepTwice(buf: seq<FailureRecord>, a: set<string>, b: set<string>)
    ensures Keep(Keep(buf, a), b) == Keep(buf, a + b)
    decreases |buf|
  {
    if buf != [] {
      KeepTwice(buf[1..], a, b);
      var k := Keep(buf, a);
      if buf[0].host in a {
        assert k == Keep(buf[1..], a);
      } else {
        assert k == [buf[0]] + Keep(buf[1..], a);
        assert k[0] == buf[0] && k[1..] == Keep(buf[1..], a);
      }
    }
  }

  lemma UniqueSnoc(s: seq<FailureRecord>, x: FailureRecord)
    requires Unique(s) && forall j :: 0 <= j < |s| ==> s[j].host != x.host
    ensures Unique(s + [x])
  {
  }

  lemma UniqueSuffix(s: seq<FailureRecord>, k: nat)
    requires Unique(s) && k <= |s|
    ensures Unique(s[k..])
  {
    assert forall i :: 0 <= i < |s| - k ==> s[k..][i] == s[k + i];
  }

  /** In a buffer without duplicates, `splice(findIndex(host), 1)` drops exactly the records for `host`. */
  lemma {:induction false} SpliceIsKeep(buf: seq<FailureRecord>, host: string)
    requires Unique(buf) && FindHost(buf, host) >= 0
    ensures var i := FindHost(buf, host); buf[..i] + buf[i + 1..] == Keep(buf, {host})
    decreases |buf|
  {
    var i := FindHost(buf, host);
    if i == 0 {
      KeepNothing(buf[1..], {host});
      assert buf[..0] + buf[1..] == buf[1..];
    } else {
      var j := FindHost(buf[1..], host);
      assert i == j + 1;
      SpliceIsKeep(buf[1..], host);
      assert buf[..i] + buf[i + 1..] == [buf[0]] + (buf[1..][..j] + buf[1..][j + 1..]);
    }
  }

  /** In a buffer without duplicates, the merge is: every other record in its old
      order, then the updated record for `host`. */
  lemma MergedIsKeep(buf: seq<FailureRecord>, host: string, error: string, now: int)
    requires Unique(buf)
    ensures Merged(buf, host, error, now)
         == Keep(buf, {host}) + [FailureRecord(host, error, now, Some(PriorHits(buf, host) + 1))]
  {
    if FindHost(buf, host) >= 0 {
      SpliceIsKeep(buf, host);
    } else {
      FindHostFirst(buf, host);
      KeepNothing(buf, {host});
    }
  }

  /** Trimming a duplicate-free buffer whose last record is new keeps it
      duplicate-free, and what precedes the new record is a suffix of the old ones. */
  lemma TrimmedSnoc(others: seq<FailureRecord>, rec: FailureRecord)
    requires Unique(others) && forall j :: 0 <= j < |others| ==> others[j].host != rec.host
    ensures var r := KeepLast(others + [rec], MAX_RECORDS);
      Unique(r)
      && (forall j :: 0 <= j < |r| - 1 ==> r[j].host != rec.host)
      && |r| - 1 <= |others| && r[..|r| - 1] == others[|others| - (|r| - 1)..]
      && |r| == if |others| + 1 <= MAX_RECORDS then |others| + 1 else MAX_RECORDS
  {
    var m := others + [rec];
    var r := KeepLast(m, MAX_RECORDS);
    var k := |m| - |r|;
    assert r == m[k..];
    assert Unique(r) by {
      UniqueSnoc(others, rec);
      UniqueSuffix(m, k);
    }
    assert r[..|r| - 1] == others[k..] by {
      assert m[..|m| - 1] == others;
    }
    forall j | 0 <= j < |r| - 1
      ensures r[j].host != rec.host
    {
      assert r[j] == others[k + j];
    }
  }

  /** Filtering out a host leaves no record for it. */
  lemma KeepDropsHost(buf: seq<FailureRecord>, host: string)
    ensures forall j :: 0 <= j < |Keep(buf, {host})| ==> Keep(buf, {host})[j].host != host
  {
    var others := Keep(buf, {host});
    KeepMembers(buf, {host});
    assert forall j :: 0 <= j < |others| ==> others[j] in others;
  }

  /** After `record` on a buffer without duplicates: still no duplicates, exactly
      one record for `host` (the last), and the records before it are the newest of
      the other records, in their old relative order; only the oldest are dropped. */
  lemma RecordedKeepsOrder(buf: seq<FailureRecord>, host: string, error: string, now: int)
    requires Unique(buf)
    ensures var r := Recorded(buf, host, error, now); var others := Keep(buf, {host});
      Unique(r)
      && (forall j :: 0 <= j < |r| - 1 ==> r[j].host != host)
      && |r| - 1 <= |others| && r[..|r| - 1] == others[|others| - (|r| - 1)..]
      && |r| == if |others| + 1 <= MAX_RECORDS then |others| + 1 else MAX_RECORDS
  {
    var others := Keep(buf, {host});
    var rec := FailureRecord(host, error, now, Some(PriorHits(buf, host) + 1));
    assert Recorded(buf, host, error, now) == KeepLast(others + [rec], MAX_RECORDS) by {
      MergedIsKeep(buf, host, error, now);
    }
    KeepUnique(buf, {host});
    KeepDropsHost(buf, host);
    TrimmedSnoc(others, rec);
  }

  /** `record` keeps a duplicate-free buffer duplicate-free. */
  lemma RecordedUnique(buf: seq<FailureRecord>, host: string, error: string, now: int)
    ensures Unique(buf) ==> Unique(Recorded(buf, host, error, now))
  {
    if Unique(buf) {
      RecordedKeepsOrder(buf, host, error, now);
    }
  }

  // ---------------------------------------------------------------- prune

  /** `normalize(host)` followed by the `if (normalizedHost)` test: the host a PRUNE
      request names, or None when that is null or the empty string. */
  function PruneTarget(parse: UrlParser, h: string): (r: Option<string>)
    ensures r.Some? ==> r.value != "" && Normalize(parse, h) == r
    ensures Normalize(parse, h).Some? && Normalize(parse, h).value != "" ==> r == Normalize(parse, h)
  {
    var n := Normalize(parse, h);
    if n.Some? && n.value != "" then n else None
  }

  /** `buffer.splice(buffer.findIndex(r => r.host === n), 1)` when there is a host `n`
      and a record for it; otherwise the buffer as it is. */
  function RemoveFirst(buf: seq<FailureRecord>, target: Option<string>): seq<FailureRecord> {
    match target
    case None => buf
    case Some(n) =>
      var i := FindHost(buf, n);
      if i >= 0 then buf[..i] + buf[i + 1..] else buf
  }

  /** One pass of the PRUNE loop: drop the first record for the normalized host. */
  function PruneStep(parse: UrlParser, buf: seq<FailureRecord>, h: string): seq<FailureRecord> {
    RemoveFirst(buf, PruneTarget(parse, h))
  }

  /** The buffer after the PRUNE loop has visited `hosts` in order. Each requested
      host removes at most one record, only records of the old buffer remain, and a
      prune that removes nothing leaves the buffer as it was. */
  function PruneAll(parse: UrlParser, buf: seq<FailureRecord>, hosts: seq<string>): (r: seq<FailureRecord>)
    ensures |buf| - |hosts| <= |r| <= |buf|
    ensures multiset(r) <= multiset(buf)
    ensures |r| == |buf| ==> r == buf
    decreases |hosts|
  {
    if hosts == [] then buf
    else
      var b := PruneAll(parse, buf, hosts[..|hosts| - 1]);
      PruneStepBounds(parse, b, hosts[|hosts| - 1]);
      PruneStep(parse, b, hosts[|hosts| - 1])
  }

  /** Every normalized, non-empty host of a PRUNE request. */
  function PruneTargets(parse: UrlParser, hosts: seq<string>): set<string>
    decreases |hosts|
  {
    if hosts == [] then {}
    else
      PruneTargets(parse, hosts[..|hosts| - 1]) + TargetSet(parse, hosts[|hosts| - 1])
  }

  function TargetSet(parse: UrlParser, h: string): set<string> {
    AsSet(PruneTarget(parse, h))
  }

  function AsSet(t: Option<string>): set<string> {
    match t
    case None => {}
    case Some(n) => {n}
  }

  /** One pass removes at most one record and keeps the rest. */
  lemma PruneStepBounds(parse: UrlParser, buf: seq<FailureRecord>, h: string)
    ensures var r := PruneStep(parse, buf, h);
      r == buf || (|r| == |buf| - 1 && multiset(r) <= multiset(buf))
  {
    var t := PruneTarget(parse, h);
    if t.Some? && FindHost(buf, t.value) >= 0 {
      PruneStepRemovesMatch(parse, buf, h);
    }
  }

  /** Splicing out the first record for a host that has one shortens the buffer
      by exactly that record. */
  lemma SpliceRemovesOne(buf: seq<FailureRecord>, n: string)
    requires FindHost(buf, n) >= 0
    ensures var i := FindHost(buf, n);
      |RemoveFirst(buf, Some(n))| == |buf| - 1 && buf[i].host == n
      && multiset(RemoveFirst(buf, Some(n))) + multiset{buf[i]} == multiset(buf)
  {
    var i := FindHost(buf, n);
    assert RemoveFirst(buf, Some(n)) == buf[..i] + buf[i + 1..];
    assert buf == buf[..i] + [buf[i]] + buf[i + 1..];
  }

  /** One pass removes exactly one record when the request names a host that has a
      record, the first record for it, and otherwise leaves the buffer as it is. */
  lemma PruneStepRemovesMatch(parse: UrlParser, buf: seq<FailureRecord>, h: string)
    ensures var t := PruneTarget(parse, h);
      (t.None? || forall j :: 0 <= j < |buf| ==> buf[j].host != t.value) ==> PruneStep(parse, buf, h) == buf
    ensures var r := PruneStep(parse, buf, h); var t := PruneTarget(parse, h);
      t.Some? && FindHost(buf, t.value) >= 0 ==>
        |r| == |buf| - 1 && buf[FindHost(buf, t.value)].host == t.value
        && multiset(r) + multiset{buf[FindHost(buf, t.value)]} == multiset(buf)
  {
    var t := PruneTarget(parse, h);
    if t.Some? {
      FindHostFirst(buf, t.value);
      if FindHost(buf, t.value) >= 0 {
        SpliceRemovesOne(buf, t.value);
      }
    }
  }

  /** On a buffer without duplicates, one pass of the loop over a filtered buffer
      filters out one more host. */
  lemma RemoveFirstIsKeep(buf: seq<FailureRecord>, targets: set<string>, t: Option<string>)
    requires Unique(buf)
    ensures RemoveFirst(Keep(buf, targets), t) == Keep(buf, targets + AsSet(t))
  {
    var b := Keep(buf, targets);
    match t
    case None =>
      assert targets + AsSet(t) == targets;
    case Some(n) =>
      KeepTwice(buf, targets, {n});
      if FindHost(b, n) >= 0 {
        KeepUnique(buf, targets);
        SpliceIsKeep(b, n);
      } else {
        FindHostFirst(b, n);
        KeepNothing(b, {n});
      }
  }

  /** On a buffer without duplicates, pruning is a filter: the survivors are exactly
      the records whose host is not a normalized requested host, in their old order. */
  lemma {:induction false} PruneIsFilter(parse: UrlParser, buf: seq<FailureRecord>, hosts: seq<string>)
    requires Unique(buf)
    ensures PruneAll(parse, buf, hosts) == Keep(buf, PruneTargets(parse, hosts))
    decreases |hosts|
  {
    if hosts != [] {
      var front := hosts[..|hosts| - 1];
      PruneIsFilter(parse, buf, front);
      RemoveFirstIsKeep(buf, PruneTargets(parse, front), PruneTarget(parse, hosts[|hosts| - 1]));
    } else {
      KeepNothing(buf, {});
    }
  }

  /** PRUNE keeps a duplicate-free buffer duplicate-free. */
  lemma PruneKeepsUnique(parse: UrlParser, buf: seq<FailureRecord>, hosts: seq<string>)
    ensures Unique(buf) ==> Unique(PruneAll(parse, buf, hosts))
  {
    if Unique(buf) {
      PruneIsFilter(parse, buf, hosts);
      KeepUnique(buf, PruneTargets(parse, hosts));
    }
  }

  /** A request whose hosts the URL parser rejects (a WHATWG parser rejects a bare
      `example.com`) prunes nothing. */
  lemma {:induction false} PruneUnparsedHosts(parse: UrlParser, buf: seq<FailureRecord>, hosts: seq<string>)
    requires forall j :: 0 <= j < |hosts| ==> parse(hosts[j]).None?
    ensures PruneAll(parse, buf, hosts) == buf
    decreases |hosts|
  {
    if hosts != [] {
      PruneUnparsedHosts(parse, buf, hosts[..|hosts| - 1]);
      assert parse(hosts[|hosts| - 1]).None?;
    }
  }

  // ---------------------------------------------------------------- get

  /** Most recently seen first. */
  predicate SortedByLastSeen(s: seq<FailureRecord>) {
    forall i, j :: 0 <= i < j < |s| ==> s[i].lastSeen >= s[j].lastSeen
  }

  lemma SortedTail(s: seq<FailureRecord>)
    requires SortedByLastSeen(s) && s != []
    ensures SortedByLastSeen(s[1..])
  {
    forall i, j | 0 <= i < j < |s| - 1
      ensures s[1..][i].lastSeen >= s[1..][j].lastSeen
    {
      assert s[1..][i] == s[i + 1] && s[1..][j] == s[j + 1];
    }
  }

  lemma SortedCons(y: FailureRecord, t: seq<FailureRecord>)
    requires SortedByLastSeen(t) && (t == [] || y.lastSeen >= t[0].lastSeen)
    ensures SortedByLastSeen([y] + t)
  {
    var r := [y] + t;
    forall i, j | 0 <= i < j < |r|
      ensures r[i].lastSeen >= r[j].lastSeen
    {
      assert r[j] == t[j - 1];
      if i > 0 {
        assert r[i] == t[i - 1];
      } else if j > 1 {
        assert t[0].lastSeen >= t[j - 1].lastSeen;
      }
    }
  }

  /** Puts `x` before the first record seen no later than it. */
  function InsertByLastSeen(x: FailureRecord, s: seq<FailureRecord>): (r: seq<FailureRecord>)
    requires SortedByLastSeen(s)
    ensures SortedByLastSeen(r)
    ensures multiset(r) == multiset(s) + multiset{x}
    ensures |r| == |s| + 1 && (r[0] == x || (s != [] && r[0] == s[0]))
    decreases |s|
  {
    if s == [] || s[0].lastSeen <= x.lastSeen then
      SortedCons(x, s);
      [x] + s
    else
      SortedTail(s);
      var rest := InsertByLastSeen(x, s[1..]);
      assert s == [s[0]] + s[1..];
      SortedCons(s[0], rest);
      [s[0]] + rest
  }

  /** `list.slice().sort((a, b) => b.lastSeen - a.lastSeen)`: a stable sort, newest first. */
  function SortByLastSeen(s: seq<FailureRecord>): (r: seq<FailureRecord>)
    ensures SortedByLastSeen(r)
    ensures multiset(r) == multiset(s)
    decreases |s|
  {
    if s == [] then []
    else
      assert s == [s[0]] + s[1..];
      InsertByLastSeen(s[0], SortByLastSeen(s[1..]))
  }

  // ---------------------------------------------------------------- add to proxy

  /** What one `fetch` of the add-domain endpoint came to: a response with its
      status, or a rejection with its message. */
  datatype FetchOutcome = Responded(status: int) | Threw(message: string)

  /** `{domain, ok, status}` or `{domain, ok: false, error}`. */
  datatype ProxyResult = ProxyResult(domain: string, ok: bool, status: Option<int>, error: Option<string>)

  /** `Response.ok`: a status in the range 200 to 299. */
  predicate ResponseOk(status: int) {
    200 <= status <= 299
  }

  /** The ADD_TO_PROXY result list: one entry per requested domain, in request
      order, each built from that domain's own outcome only. */
  function ProxyResults(domains: seq<string>, outcomes: seq<FetchOutcome>): (r: seq<ProxyResult>)
    requires |outcomes| == |domains|
    ensures |r| == |domains|
    ensures forall i :: 0 <= i < |r| ==> r[i].domain == domains[i]
    ensures forall i :: 0 <= i < |r| ==>
      (r[i].ok <==> outcomes[i].Responded? && ResponseOk(outcomes[i].status))
    ensures forall i :: 0 <= i < |r| ==>
      (r[i].error.Some? <==> outcomes[i].Threw?) && (r[i].status.Some? <==> outcomes[i].Responded?)
    ensures forall i :: 0 <= i < |r| ==>
      (outcomes[i].Responded? ==> r[i].status == Some(outcomes[i].status))
      && (outcomes[i].Threw? ==> r[i].error == Some(outcomes[i].message))
  {
    seq(|domains|, i requires 0 <= i < |domains| =>
      match outcomes[i]
      case Responded(status) => ProxyResult(domains[i], ResponseOk(status), Some(status), None)
      case Threw(message) => ProxyResult(domains[i], false, None, Some(message)))
  }

  // ---------------------------------------------------------------- the worker

  /** A message from the popup. A missing `hosts` or `domains` is None. */
  datatype Message =
    | GetFailedHosts
    | ClearFailedHosts
    | PruneFailedHosts(hosts: Option<seq<string>>)
    | AddToProxy(domains: Option<seq<string>>)
    | Other

  datatype Reply =
    | HostList(list: seq<FailureRecord>)
    | Cleared(ok: bool, countCleared: nat)
    | Pruned(ok: bool, pruned: nat)
    | ProxyReplies(results: seq<ProxyResult>)
    | NoReply

  /** The host a signal is recorded under: its normalized host, when that is
      non-empty and the (host, error) pair is outside its debounce window. */
  function Admitted(parse: UrlParser, url: string, error: string, recent: map<string, int>, now: int): (r: Option<string>)
    ensures r.Some? <==> Normalize(parse, url).Some? && Normalize(parse, url).value != ""
                         && !Suppressed(recent, DebounceKey(Normalize(parse, url).value, error), now)
    ensures r.Some? ==> r == Normalize(parse, url)
  {
    match Normalize(parse, url)
    case None => None
    case Some(host) => if host == "" || Suppressed(recent, DebounceKey(host, error), now) then None else Some(host)
  }

  class Worker {
    /** The ledger in memory, least recently updated first. */
    var buffer: seq<FailureRecord>
    /** What the last save wrote to session storage under `failedHosts`. */
    var stored: seq<FailureRecord>
    /** The debounce map, `host|error` to the time that pair was last admitted. */
    var recent: map<string, int>

    /** A fresh worker: an empty buffer until the storage read completes. */
    constructor (snapshot: seq<FailureRecord>)
      ensures buffer == [] && stored == snapshot && recent == map[]
    {
      buffer := [];
      stored := snapshot;
      recent := map[];
    }

    /** The startup storage read: the buffer becomes the saved list. */
    method Load()
      modifies this
      ensures buffer == stored && stored == old(stored) && recent == old(recent)
    {
      buffer := stored;
    }

    /** `save()`: the storage write, reduced to a snapshot of the buffer. */
    method Save()
      modifies this
      ensures stored == buffer && buffer == old(buffer) && recent == old(recent)
    {
      stored := buffer;
    }

    /** `debounced(host, error)`: true inside the window of the pair's last admission;
        otherwise the pair is admitted at `now`. */
    method Debounced(host: string, error: string, now: int) returns (suppressed: bool)
      modifies this
      ensures suppressed == Suppressed(old(recent), DebounceKey(host, error), now)
      ensures recent == if suppressed then old(recent) else old(recent)[DebounceKey(host, error) := now]
      ensures buffer == old(buffer) && stored == old(stored)
    {
      var key := DebounceKey(host, error);
      var last := if key in recent then recent[key] else 0;
      if now - last < DEBOUNCE_MS {
        return true;
      }
      recent := recent[key := now];
      return false;
    }

    /** `if (buffer.length > MAX) buffer = buffer.slice(-MAX)`. */
    method Trim()
      modifies this
      ensures buffer == KeepLast(old(buffer), MAX_RECORDS)
      ensures stored == old(stored) && recent == old(recent)
    {
      if |buffer| > MAX_RECORDS {
        buffer := buffer[|buffer| - MAX_RECORDS..];
      }
    }

    /** `record`'s splice and push: the host's record, updated, moves to the end. */
    method Merge(host: string, error: string, now: int)
      modifies this
      ensures buffer == Merged(old(buffer), host, error, now)
      ensures stored == old(stored) && recent == old(recent)
    {
      ghost var before := buffer;
      var idx := FindHost(buffer, host);
      if idx >= 0 {
        var rec := buffer[idx];
        buffer := buffer[..idx] + buffer[idx + 1..];
        rec := rec.(hits := Some(HitCount(rec) + 1), lastError := error, lastSeen := now);
        assert rec == FailureRecord(host, error, now, Some(PriorHits(before, host) + 1));
        buffer := buffer + [rec];
      } else {
        buffer := buffer + [FailureRecord(host, error, now, Some(1))];
      }
    }

    /** `record(host, error)`: merge into the host's record or add one, move it to the
        end, keep the newest 200, save. */
    method Record(host: string, error: string, now: int)
      modifies this
      ensures buffer == Recorded(old(buffer), host, error, now)
      ensures stored == buffer && recent == old(recent)
      ensures 1 <= |buffer| <= MAX_RECORDS
      ensures buffer[|buffer| - 1] == FailureRecord(host, error, now, Some(PriorHits(old(buffer), host) + 1))
      ensures Unique(old(buffer)) ==> Unique(buffer)
    {
      ghost var before := buffer;
      Merge(host, error, now);
      Trim();
      RecordedUnique(before, host, error, now);
      Save();
    }

    /** `handleError(details)`. */
    method HandleError(parse: UrlParser, details: RequestDetails, now: int)
      modifies this
      ensures var err := ErrorText(details);
        match Admitted(parse, details.url, err, old(recent), now)
        case Some(host) =>
          recent == old(recent)[DebounceKey(host, err) := now]
          && buffer == Recorded(old(buffer), host, err, now) && stored == buffer
        case None =>
          recent == old(recent) && buffer == old(buffer) && stored == old(stored)
    {
      var host := Normalize(parse, details.url);
      if host.None? || host.value == "" {
        return;
      }
      var err := ErrorText(details);
      var suppressed := Debounced(host.value, err, now);
      if suppressed {
        return;
      }
      Record(host.value, err, now);
    }

    /** `handleCompleted(details)`: only a status of 400 or more is a failure. */
    method HandleCompleted(parse: UrlParser, details: RequestDetails, now: int)
      modifies this
      ensures match StatusError(details)
        case None =>
          recent == old(recent) && buffer == old(buffer) && stored == old(stored)
        case Some(err) =>
          match Admitted(parse, details.url, err, old(recent), now)
          case Some(host) =>
            recent == old(recent)[DebounceKey(host, err) := now]
            && buffer == Recorded(old(buffer), host, err, now) && stored == buffer
          case None =>
            recent == old(recent) && buffer == old(buffer) && stored == old(stored)
    {
      if details.statusCode.None? || details.statusCode.value == 0 || details.statusCode.value < 400 {
        return;
      }
      var host := Normalize(parse, details.url);
      if host.None? || host.value == "" {
        return;
      }
      var err := DecimalString(details.statusCode.value);
      var suppressed := Debounced(host.value, err, now);
      if suppressed {
        return;
      }
      Record(host.value, err, now);
    }

    /** GET_FAILED_HOSTS: the saved list, newest first; nothing changes. */
    method GetFailedHosts() returns (list: seq<FailureRecord>)
      ensures SortedByLastSeen(list)
      ensures multiset(list) == multiset(stored)
    {
      list := SortByLastSeen(stored);
    }

    /** CLEAR_FAILED_HOSTS: empty the buffer, save, report how many records there were. */
    method ClearFailedHosts() returns (ok: bool, countCleared: nat)
      modifies this
      ensures ok && countCleared == |old(buffer)|
      ensures buffer == [] && stored == [] && recent == old(recent)
    {
      countCleared := |buffer|;
      buffer := [];
      Save();
      ok := true;
    }

    /** The PRUNE loop's callback for one requested host: `normalize` it and, when
        that gives a host with a record, splice out the first such record. */
    method PruneHost(parse: UrlParser, host: string) returns (removed: bool)
      modifies this
      ensures buffer == PruneStep(parse, old(buffer), host)
      ensures |old(buffer)| - |buffer| == if removed then 1 else 0
      ensures stored == old(stored) && recent == old(recent)
    {
      removed := false;
      var normalizedHost := PruneTarget(parse, host);
      if normalizedHost.Some? {
        var idx := FindHost(buffer, normalizedHost.value);
        if idx >= 0 {
          buffer := buffer[..idx] + buffer[idx + 1..];
          removed := true;
        }
      }
    }

    /** PRUNE_FAILED_HOSTS: for each requested host, `normalize` it and splice out the
        first record for it; save only if something was removed. */
    method PruneFailedHosts(parse: UrlParser, hosts: seq<string>) returns (ok: bool, pruned: nat)
      modifies this
      ensures ok
      ensures buffer == PruneAll(parse, old(buffer), hosts)
      ensures pruned == |old(buffer)| - |buffer| && pruned <= |hosts|
      ensures stored == if pruned > 0 then buffer else old(stored)
      ensures pruned == 0 ==> buffer == old(buffer)
      ensures Unique(old(buffer)) ==> Unique(buffer)
      ensures recent == old(recent)
    {
      pruned := 0;
      var i := 0;
      while i < |hosts|
        invariant 0 <= i <= |hosts|
        invariant buffer == PruneAll(parse, old(buffer), hosts[..i])
        invariant pruned == |old(buffer)| - |buffer|
        invariant stored == old(stored) && recent == old(recent)
      {
        var removed := PruneHost(parse, hosts[i]);
        if removed {
          pruned := pruned + 1;
        }
        assert PruneAll(parse, old(buffer), hosts[..i + 1])
            == PruneStep(parse, PruneAll(parse, old(buffer), hosts[..i]), hosts[i]) by {
          assert hosts[..i + 1][..i] == hosts[..i] && hosts[..i + 1][i] == hosts[i];
        }
        i := i + 1;
      }
      assert hosts[..i] == hosts;
      PruneKeepsUnique(parse, old(buffer), hosts);
      if pruned > 0 {
        Save();
      }
      ok := true;
    }

    /** The message listener. ADD_TO_PROXY's fetches are not modelled: `outcomes`
        holds what each one came to. */
    method HandleMessage(parse: UrlParser, msg: Message, outcomes: seq<FetchOutcome>) returns (reply: Reply)
      requires msg.AddToProxy? ==> |outcomes| == |DomainsOf(msg)|
      modifies this
      ensures msg.GetFailedHosts? ==>
        reply.HostList? && SortedByLastSeen(reply.list) && multiset(reply.list) == multiset(stored)
      ensures msg.ClearFailedHosts? ==>
        reply == Cleared(true, |old(buffer)|) && buffer == [] && stored == [] && recent == old(recent)
      ensures msg.PruneFailedHosts? ==>
        reply.Pruned? && reply.ok && buffer == PruneAll(parse, old(buffer), HostsOf(msg))
        && reply.pruned == |old(buffer)| - |buffer| && reply.pruned <= |HostsOf(msg)|
        && stored == (if reply.pruned > 0 then buffer else old(stored))
        && (Unique(old(buffer)) ==> Unique(buffer))
        && recent == old(recent)
      ensures msg.AddToProxy? ==> reply == ProxyReplies(ProxyResults(DomainsOf(msg), outcomes))
      ensures msg.Other? ==> reply == NoReply
      ensures !msg.ClearFailedHosts? && !msg.PruneFailedHosts? ==>
        buffer == old(buffer) && stored == old(stored) && recent == old(recent)
    {
      match msg
      case GetFailedHosts =>
        var list := GetFailedHosts();
        reply := HostList(list);
      case ClearFailedHosts =>
        var ok, countCleared := ClearFailedHosts();
        reply := Cleared(ok, countCleared);
      case PruneFailedHosts(_) =>
        var ok, pruned := PruneFailedHosts(parse, HostsOf(msg));
        reply := Pruned(ok, pruned);
      case AddToProxy(_) =>
        reply := ProxyReplies(ProxyResults(DomainsOf(msg), outcomes));
      case Other =>
        reply := NoReply;
    }
  }

  /** `msg.hosts || []`. */
  function HostsOf(msg: Message): seq<string> {
    if msg.PruneFailedHosts? && msg.hosts.Some? then msg.hosts.value else []
  }

  /** `Array.isArray(msg.domains) ? msg.domains : []`. */
  function DomainsOf(msg: Message): seq<string> {
    if msg.AddToProxy? && msg.domains.Some? then msg.domains.value else []
  }
}
