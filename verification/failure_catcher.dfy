/** The append-only failure ledger of failure-catcher/background.js. Every admitted
    failure is appended as its own entry, duplicates and all, and the list keeps the
    newest 200. The ignore list is applied when a failure is added, after the
    debounce window has been started. The popup reads the list as it is in memory,
    clears it, and asks the worker to add hosts to the proxy service; it never
    sends PRUNE_FAILED_HOSTS, so the PRUNE handler answers other senders only. */
module FailureCatcher {
  import opened Wrappers
  import opened Text
  import opened Signals

  /** One captured failure. */
  datatype Failure = Failure(host: string, error: string, time: int)

  // ---------------------------------------------------------------- normalizeHost

  /** `normalizeHost(url)`: the lower-cased hostname without one leading `www.`, or
      None when the URL does not parse or the host is a dotted IPv4 literal or a
      bracketed IPv6 literal. The ignore list is not applied here. */
  function NormalizeHost(parse: UrlParser, url: string): (r: Option<string>)
    ensures r.Some? ==> parse(url).Some? && r.value == Canonical(parse(url).value)
    ensures r.Some? ==> IsLower(r.value) && !IsDottedQuad(r.value) && !IsBracketedHex(r.value)
    ensures (parse(url).Some? && !IsDottedQuad(Canonical(parse(url).value))
             && !IsBracketedHex(Canonical(parse(url).value))) ==> r.Some?
  {
    match parse(url)
    case None => None
    case Some(hostname) =>
      var host := Canonical(hostname);
      if IsDottedQuad(host) || IsBracketedHex(host) then None else Some(host)
  }

  /** `if (host)`: a normalized host that is not the empty string. */
  function Captured(h: Option<string>): (r: Option<string>)
    ensures r.Some? <==> h.Some? && h.value != ""
    ensures r.Some? ==> r == h
  {
    if h.Some? && h.value != "" then h else None
  }

  // ---------------------------------------------------------------- addFailure

  /** `failedHosts.push({host, error, time: now})` followed by the trim to 200: at
      most 200 entries, the new failure last, and before it the newest of the old
      entries in their order; only the oldest are dropped. */
  function Appended(fs: seq<Failure>, host: string, error: string, now: int): (r: seq<Failure>)
    ensures 1 <= |r| <= MAX_RECORDS
    ensures r[|r| - 1] == Failure(host, error, now)
    ensures |r| - 1 <= |fs| && r[..|r| - 1] == fs[|fs| - (|r| - 1)..]
    ensures |r| == if |fs| + 1 <= MAX_RECORDS then |fs| + 1 else MAX_RECORDS
  {
    var s := fs + [Failure(host, error, now)];
    var r := KeepLast(s, MAX_RECORDS);
    assert r[..|r| - 1] == s[|s| - |r|..|s| - 1];
    assert s[..|s| - 1] == fs;
    r
  }

  /** There is no per-host merge: below the bound, an earlier failure of the same
      host stays where it was and the new one is a second entry for that host. */
  lemma AppendedKeepsDuplicates(fs: seq<Failure>, host: string, error: string, now: int, j: nat)
    requires j < |fs| && fs[j].host == host && |fs| < MAX_RECORDS
    ensures var r := Appended(fs, host, error, now);
      |r| == |fs| + 1 && r[j] == fs[j] && r[|r| - 1].host == host
  {
  }

  /** The ledger's state: the list in memory, the last saved copy and the debounce map. */
  datatype Ledger = Ledger(failedHosts: seq<Failure>, stored: seq<Failure>, debounceMap: map<string, int>)

  /** The ledger after `addFailure(host, error)` at time `now`.
      A call changes the ledger exactly when the pair is outside its window, and the
      saved copy is either untouched or the new list. */
  function AddedFailure(l: Ledger, host: string, error: string, now: int): (r: Ledger)
    ensures r == l <==> Suppressed(l.debounceMap, DebounceKey(host, error), now)
    ensures r.stored == l.stored || r.stored == r.failedHosts
  {
    var key := DebounceKey(host, error);
    if Suppressed(l.debounceMap, key, now) then l
    else if ShouldIgnore(host) then l.(debounceMap := l.debounceMap[key := now])
    else
      var fs := Appended(l.failedHosts, host, error, now);
      Ledger(fs, fs, l.debounceMap[key := now])
  }

  /** Inside the window of the pair's last admission nothing changes. */
  lemma AddFailureDebounced(l: Ledger, host: string, error: string, now: int)
    requires Suppressed(l.debounceMap, DebounceKey(host, error), now)
    ensures AddedFailure(l, host, error, now) == l
  {
  }

  /** An ignore-listed host is never appended, yet it starts a debounce window: the
      same pair is suppressed for the next 4000 ms. */
  lemma AddFailureIgnored(l: Ledger, host: string, error: string, now: int, later: int)
    requires !Suppressed(l.debounceMap, DebounceKey(host, error), now) && ShouldIgnore(host)
    requires now <= later < now + DEBOUNCE_MS
    ensures var l' := AddedFailure(l, host, error, now);
      l'.failedHosts == l.failedHosts && l'.stored == l.stored
      && l'.debounceMap == l.debounceMap[DebounceKey(host, error) := now]
      && Suppressed(l'.debounceMap, DebounceKey(host, error), later)
  {
  }

  /** A kept failure is appended at the end, the list stays within 200 entries, and
      the saved copy is the new list. */
  lemma AddFailureKept(l: Ledger, host: string, error: string, now: int)
    requires !Suppressed(l.debounceMap, DebounceKey(host, error), now) && !ShouldIgnore(host)
    ensures var l' := AddedFailure(l, host, error, now);
      1 <= |l'.failedHosts| <= MAX_RECORDS
      && l'.failedHosts[|l'.failedHosts| - 1] == Failure(host, error, now)
      && l'.stored == l'.failedHosts
      && l'.debounceMap == l.debounceMap[DebounceKey(host, error) := now]
  {
  }

  // ---------------------------------------------------------------- prune

  /** `(msg.hosts || []).map(h => normalizeHost('http://' + h)).filter(Boolean)`. */
  function PruneTargets(parse: UrlParser, hosts: seq<string>): (t: seq<string>)
    ensures |t| <= |hosts|
    ensures forall n :: n in t ==> n != "" && exists j :: 0 <= j < |hosts| && NormalizeHost(parse, "http://" + hosts[j]) == Some(n)
    ensures forall j :: 0 <= j < |hosts| && Captured(NormalizeHost(parse, "http://" + hosts[j])).Some? ==>
      NormalizeHost(parse, "http://" + hosts[j]).value in t
    decreases |hosts|
  {
    if hosts == [] then []
    else
      var rest := PruneTargets(parse, hosts[1..]);
      assert forall j :: 0 < j < |hosts| ==> hosts[1..][j - 1] == hosts[j];
      match Captured(NormalizeHost(parse, "http://" + hosts[0]))
      case None => rest
      case Some(n) => [n] + rest
  }

  /** `failedHosts.filter(h => !targets.includes(h.host))`. */
  function Survivors(fs: seq<Failure>, targets: seq<string>): (r: seq<Failure>)
    ensures |r| <= |fs|
    ensures forall x :: x in r <==> x in fs && x.host !in targets
    decreases |fs|
  {
    if fs == [] then []
    else
      assert fs == [fs[0]] + fs[1..];
      (if fs[0].host in targets then [] else [fs[0]]) + Survivors(fs[1..], targets)
  }

  /** The filter keeps order: it works piece by piece along the list. */
  lemma {:induction false} SurvivorsConcat(a: seq<Failure>, b: seq<Failure>, targets: seq<string>)
    ensures Survivors(a + b, targets) == Survivors(a, targets) + Survivors(b, targets)
    decreases |a|
  {
    if a != [] {
      assert (a + b)[0] == a[0] && (a + b)[1..] == a[1..] + b;
      SurvivorsConcat(a[1..], b, targets);
      assert Survivors(a + b, targets)
          == (if a[0].host in targets then [] else [a[0]]) + Survivors(a[1..] + b, targets);
    } else {
      assert a + b == b;
    }
  }

  /** A list none of whose hosts is a target survives whole. */
  lemma {:induction false} SurvivorsNone(fs: seq<Failure>, targets: seq<string>)
    requires forall j :: 0 <= j < |fs| ==> fs[j].host !in targets
    ensures Survivors(fs, targets) == fs
    decreases |fs|
  {
    if fs != [] {
      SurvivorsNone(fs[1..], targets);
    }
  }

  // ---------------------------------------------------------------- add to proxy

  /** The service's answer: `res.ok`, `res.status` and the `added` / `failed` arrays
      of the JSON body, None where the body has no such array or is not JSON. */
  datatype ServiceReply = ServiceReply(ok: bool, status: int, added: Option<seq<string>>, failed: Option<seq<string>>)

  /** What the POST came to: an answer, or a rejection with its text. */
  datatype PostOutcome = Answered(reply: ServiceReply) | PostFailed(message: string)

  /** `{ok, status, added, failed}` or `{ok: false, error, added: [], failed: domains}`. */
  datatype ProxyReply = ProxyReply(ok: bool, status: Option<int>, error: Option<string>, added: seq<string>, failed: seq<string>)

  /** The ADD_TO_PROXY fold: the service's own lists where it sent them, otherwise
      all domains added on success and all failed on an error status; a POST that
      did not complete fails every domain. */
  function FoldReply(domains: seq<string>, outcome: PostOutcome): (r: ProxyReply)
    ensures outcome.PostFailed? ==>
      !r.ok && r.error == Some(outcome.message) && r.added == [] && r.failed == domains
    ensures outcome.Answered? ==>
      r.ok == outcome.reply.ok && r.status == Some(outcome.reply.status) && r.error.None?
    ensures outcome.Answered? && outcome.reply.added.Some? ==> r.added == outcome.reply.added.value
    ensures outcome.Answered? && outcome.reply.failed.Some? ==> r.failed == outcome.reply.failed.value
    ensures outcome.Answered? && outcome.reply.added.None? ==>
      r.added == (if outcome.reply.ok then domains else [])
    ensures outcome.Answered? && outcome.reply.failed.None? ==>
      r.failed == (if outcome.reply.ok then [] else domains)
  {
    match outcome
    case PostFailed(message) => ProxyReply(false, None, Some(message), [], domains)
    case Answered(reply) =>
      var added := if reply.added.Some? then reply.added.value else if reply.ok then domains else [];
      var failed := if reply.failed.Some? then reply.failed.value else if reply.ok then [] else domains;
      ProxyReply(reply.ok, Some(reply.status), None, added, failed)
  }

  /** When the service names no domains itself, every domain is reported exactly
      once: all as added when `ok`, all as failed otherwise. */
  lemma FoldReplyPartitions(domains: seq<string>, outcome: PostOutcome)
    requires outcome.PostFailed? || (outcome.reply.added.None? && outcome.reply.failed.None?)
    ensures var r := FoldReply(domains, outcome);
      (r.ok ==> r.added == domains && r.failed == [])
      && (!r.ok ==> r.added == [] && r.failed == domains)
      && multiset(r.added) + multiset(r.failed) == multiset(domains)
  {
  }

  // ---------------------------------------------------------------- the worker

  /** A message from the popup. A missing `hosts` is None. */
  datatype Message =
    | GetFailedHosts
    | ClearFailedHosts
    | PruneFailedHosts(hosts: Option<seq<string>>)
    | AddToProxy(hosts: Option<seq<string>>)
    | Other

  datatype Reply =
    | HostList(hosts: seq<Failure>)
    | Cleared(ok: bool, countCleared: nat)
    | Pruned(ok: bool, pruned: nat)
    | Proxy(reply: ProxyReply)
    | NoReply

  /** `msg.hosts || []`. */
  function HostsOf(msg: Message): seq<string> {
    match msg
    case PruneFailedHosts(hosts) => if hosts.Some? then hosts.value else []
    case AddToProxy(hosts) => if hosts.Some? then hosts.value else []
    case _ => []
  }

  class Worker {
    /** The list in memory, oldest first. */
    var failedHosts: seq<Failure>
    /** What the last save wrote to session storage under `failedHosts`. */
    var stored: seq<Failure>
    /** `host|error` to the time that pair was last admitted. */
    var debounceMap: map<string, int>

    function State(): Ledger
      reads this
    {
      Ledger(failedHosts, stored, debounceMap)
    }

    /** A fresh worker: an empty list until the storage read completes. */
    constructor (snapshot: seq<Failure>)
      ensures State() == Ledger([], snapshot, map[])
    {
      failedHosts := [];
      stored := snapshot;
      debounceMap := map[];
    }

    /** `loadFromStorage()`: the list becomes the saved list. */
    method LoadFromStorage()
      modifies this
      ensures State() == old(State()).(failedHosts := old(stored))
    {
      failedHosts := stored;
    }

    /** `saveToStorage()`: the storage write, reduced to a snapshot of the list. */
    method SaveToStorage()
      modifies this
      ensures State() == old(State()).(stored := old(failedHosts))
    {
      stored := failedHosts;
    }

    /** `addFailure(host, error)`: debounce, start the window, skip ignored hosts,
        append, keep the newest 200, save. */
    method AddFailure(host: string, error: string, now: int)
      modifies this
      ensures State() == AddedFailure(old(State()), host, error, now)
    {
      var key := DebounceKey(host, error);
      var last := if key in debounceMap then debounceMap[key] else 0;
      if now - last < DEBOUNCE_MS {
        return;
      }
      debounceMap := debounceMap[key := now];
      if ShouldIgnore(host) {
        return;
      }
      failedHosts := failedHosts + [Failure(host, error, now)];
      if |failedHosts| > MAX_RECORDS {
        failedHosts := failedHosts[|failedHosts| - MAX_RECORDS..];
      }
      SaveToStorage();
    }

    /** `handleCompleted(details)`: a status of 400 or more is added under its code. */
    method HandleCompleted(parse: UrlParser, details: RequestDetails, now: int)
      modifies this
      ensures var host := Captured(NormalizeHost(parse, details.url));
        State() == if StatusError(details).Some? && host.Some?
                   then AddedFailure(old(State()), host.value, StatusError(details).value, now)
                   else old(State())
    {
      if details.statusCode.Some? && details.statusCode.value >= 400 {
        var host := NormalizeHost(parse, details.url);
        if host.Some? && host.value != "" {
          AddFailure(host.value, DecimalString(details.statusCode.value), now);
        }
      }
    }

    /** `handleError(details)`: added under `details.error || 'error'`. */
    method HandleError(parse: UrlParser, details: RequestDetails, now: int)
      modifies this
      ensures var host := Captured(NormalizeHost(parse, details.url));
        State() == if host.Some? then AddedFailure(old(State()), host.value, ErrorText(details), now)
                   else old(State())
    {
      var host := NormalizeHost(parse, details.url);
      if host.Some? && host.value != "" {
        AddFailure(host.value, ErrorText(details), now);
      }
    }

    /** CLEAR_FAILED_HOSTS: empty the list, save, report how many entries there were. */
    method ClearFailedHosts() returns (ok: bool, countCleared: nat)
      modifies this
      ensures ok && countCleared == |old(failedHosts)|
      ensures State() == Ledger([], [], old(debounceMap))
    {
      var count := |failedHosts|;
      failedHosts := [];
      SaveToStorage();
      return true, count;
    }

    /** PRUNE_FAILED_HOSTS: drop every entry, duplicates included, whose host is a
        requested host normalized as `http://` + host; save in every case. */
    method PruneFailedHosts(parse: UrlParser, hosts: seq<string>) returns (ok: bool, pruned: nat)
      modifies this
      ensures ok
      ensures failedHosts == Survivors(old(failedHosts), PruneTargets(parse, hosts))
      ensures pruned == |old(failedHosts)| - |failedHosts|
      ensures stored == failedHosts && debounceMap == old(debounceMap)
    {
      var targets := PruneTargets(parse, hosts);
      var before := |failedHosts|;
      failedHosts := Survivors(failedHosts, targets);
      pruned := before - |failedHosts|;
      SaveToStorage();
      ok := true;
    }

    /** The message listener. The POST is not modelled: `outcome` is what it came to. */
    method HandleMessage(parse: UrlParser, msg: Message, outcome: PostOutcome) returns (reply: Reply)
      modifies this
      ensures msg.GetFailedHosts? ==> reply == HostList(failedHosts)
      ensures msg.ClearFailedHosts? ==>
        reply == Cleared(true, |old(failedHosts)|) && State() == Ledger([], [], old(debounceMap))
      ensures msg.PruneFailedHosts? ==>
        reply.Pruned? && reply.ok
        && failedHosts == Survivors(old(failedHosts), PruneTargets(parse, HostsOf(msg)))
        && reply.pruned == |old(failedHosts)| - |failedHosts|
        && stored == failedHosts && debounceMap == old(debounceMap)
      ensures msg.AddToProxy? ==> reply == Proxy(FoldReply(HostsOf(msg), outcome))
      ensures msg.Other? ==> reply == NoReply
      ensures !msg.ClearFailedHosts? && !msg.PruneFailedHosts? ==> State() == old(State())
    {
      match msg
      case GetFailedHosts =>
        reply := HostList(failedHosts);
      case ClearFailedHosts =>
        var ok, countCleared := ClearFailedHosts();
        reply := Cleared(ok, countCleared);
      case PruneFailedHosts(_) =>
        var ok, pruned := PruneFailedHosts(parse, HostsOf(msg));
        reply := Pruned(ok, pruned);
      case AddToProxy(_) =>
        reply := Proxy(FoldReply(HostsOf(msg), outcome));
      case Other =>
        reply := NoReply;
    }
  }
}
