# Failure-capture ledgers, modelled in Dafny

This project models the background workers of a browser proxy extension. The
workers watch web requests, turn failing requests into host names, rate-limit
the signal and keep a bounded list of failing hosts. A popup reads that list,
clears it, prunes hosts from it, and asks the worker to add hosts to a local
allow-list service.

The repository has two variants of the worker. Each is modelled as it is
written; they are not merged:

- `omega-target-chromium-extension/overlay/x-background.js` is the
  **merge-style ledger** (module `XBackground`). It keeps one record per host,
  with a hit counter. On every update the host's record moves to the end. The
  buffer keeps the newest 200 records.
- `failure-catcher/background.js` is the **append-only ledger** (module
  `FailureCatcher`). It appends every admitted failure as its own entry,
  duplicates included, and keeps the newest 200 entries.

Both variants share some policy, which `Signals` defines once:

- the bound of 200 and the 4000 ms debounce window;
- the ignore list;
- host clean-up (ASCII lower-casing, then removal of one leading `www.`);
- the dotted-IPv4 and bracketed-IPv6 tests;
- the `host|error` debounce key and gate;
- the `slice(-200)` trim;
- how a request event becomes an error string (`details.error || 'error'`,
  `String(statusCode)`).

The other modules:

- `Text` models the string operations the normalizers and the status-code
  handlers use: `toLowerCase`, `startsWith`, `includes` and `String(n)`.
- `Variants` relates the two workers to each other.
- `Examples` works through the normalization cases on concrete hostnames.

Each worker is a `class`. Its fields are the ones the JavaScript module-level
state updates:

- `buffer` or `failedHosts`;
- `recent` or `debounceMap`;
- `stored`, the snapshot that the last `save()` / `saveToStorage()` wrote to
  session storage.

The merge-style worker's `GET_FAILED_HOSTS` reads `stored`, as the source does.
The append-only worker's GET reads the list in memory.

Some inputs the workers read from outside are parameters of the model:

- The clock (`Date.now()`) is a parameter `now`.
- The URL parser (`new URL(u).hostname`) is a parameter of type
  `UrlParser = string -> Option<string>`. Nothing is assumed about it, so it
  may reject scheme-less input, as a WHATWG parser does.

Points where the model follows the code rather than a tidier reading of it:

- `recent.get(key) || 0` reads a missing key as time 0. While `now < 4000`,
  even a fresh key is therefore suppressed (`Signals.LastAdmitted`).
- The truthiness tests (`if (!host)`, `if (normalizedHost)`,
  `.filter(Boolean)`) also drop an empty host string.
- The debounce map is never bounded in the append-only worker. In the
  merge-style worker, the only bound is the timer expiry, which is left out.
  The model keeps the maps unbounded, as written.
- The merge-style worker's PRUNE normalizes each requested host as a URL. The
  popup sends bare hosts, so with a WHATWG parser it prunes nothing.
  `Variants.PruneBareHosts` states this next to the append-only worker's
  behaviour, which prefixes `http://` first.

## Model

| member | source | states |
|---|---|---|
| Text.Lower | omega-target-chromium-extension/overlay/x-background.js:26 | `toLowerCase` on ASCII: same length, every capital mapped to its small letter, other characters untouched, no capital left, lower-case text unchanged |
| Text.ContainsOccurs | failure-catcher/background.js:49 | if `includes` succeeds, the pattern really occurs at some offset |
| Text.ContainsAt | failure-catcher/background.js:49 | an occurrence at any offset makes `includes` succeed |
| Text.MissingCharNotContained | failure-catcher/background.js:49 | a text lacking one of the pattern's characters does not include the pattern |
| Text.DecimalString | omega-target-chromium-extension/overlay/x-background.js:96 | `String(n)` is a non-empty string of decimal digits, with a leading `0` only for 0 |
| Text.DecimalRoundTrip | omega-target-chromium-extension/overlay/x-background.js:96 | reading back the decimal string of `n` gives `n` |
| Text.DecimalStringInjective | failure-catcher/background.js:74 | distinct status codes give distinct error strings |
| Signals.ShouldIgnoreOccurs | failure-catcher/background.js:48-50 | `shouldIgnore(host)` holds exactly when some ignore-list entry occurs in the host at some offset, in both directions (the same test as `IGNORE.some(...)` in `normalize`) |
| Signals.StripWww | failure-catcher/background.js:20 | the result is the host, or the host minus one leading `www.`; the prefix is always removed when present |
| Signals.Canonical | omega-target-chromium-extension/overlay/x-background.js:26-30 | the cleaned-up host has no capitals and is no longer than the hostname |
| Signals.CanonicalFixed | omega-target-chromium-extension/overlay/x-background.js:30 | a lower-case host without `www.` is its own canonical form |
| Signals.CanonicalStripsWww | failure-catcher/background.js:19-20 | exactly one `www.` is removed from a lower-case host |
| Signals.OctetsMakeQuad | omega-target-chromium-extension/overlay/x-background.js:31 | four runs of one to three digits joined by dots match the IPv4 pattern |
| Signals.DottedQuadFields | failure-catcher/background.js:22 | conversely, every string the IPv4 pattern matches is four runs of one to three digits joined by dots, so both workers' patterns denote the same language |
| Signals.DottedQuadStartsWithDigit | failure-catcher/background.js:22 | every string the IPv4 pattern matches starts with a digit |
| Signals.BracketedHexOf | failure-catcher/background.js:22 | a bracketed text matches `^\[[0-9a-f:]+\]$` exactly when the text inside is a non-empty run of lower-case hex digits and colons |
| Signals.DebounceKeyInjective | omega-target-chromium-extension/overlay/x-background.js:38 | two (host, error) pairs share a debounce key only if they are the same pair, for hosts that do not contain the separator |
| Signals.DebounceGate | failure-catcher/background.js:55-56 | a missing key reads as 0: a known pair is suppressed exactly until 4000 ms after its admission, a pair never admitted exactly while the clock reads below 4000 |
| Signals.DebounceWindow | omega-target-chromium-extension/overlay/x-background.js:40-42 | after admission at `t`, the same key is suppressed exactly while `now < t + 4000`; every other key keeps its verdict |
| Signals.KeepLast | omega-target-chromium-extension/overlay/x-background.js:70 | `slice(-n)` for a positive bound, applied past the bound: a suffix of the list, of length `n` when the list is longer, the list itself otherwise |
| Signals.ErrorText | omega-target-chromium-extension/overlay/x-background.js:80 | the error text is `details.error` whenever that is non-empty, and `'error'` when it is missing or empty |
| Signals.StatusError | omega-target-chromium-extension/overlay/x-background.js:90-96 | a completed request is an error exactly when its status is present and at least 400; the error is the status in decimal |
| Signals.StatusErrorsDistinct | failure-catcher/background.js:72-74 | two different failing status codes give two different errors, so they are debounced apart |
| XBackground.Normalize | omega-target-chromium-extension/overlay/x-background.js:23-35 | None when the URL does not parse or the canonical host is an IPv4 literal, holds `:` or contains an ignore entry; otherwise Some(canonical host), in both directions |
| XBackground.FindHost | omega-target-chromium-extension/overlay/x-background.js:60 | `findIndex` returns -1 or an index holding the host |
| XBackground.FindHostFirst | omega-target-chromium-extension/overlay/x-background.js:60 | the index is the first one holding the host, and -1 exactly when no record has it |
| XBackground.SpliceIsKeep | omega-target-chromium-extension/overlay/x-background.js:62 | on a duplicate-free buffer, splicing at the found index removes exactly the host's record and keeps the rest in order |
| XBackground.Merged | omega-target-chromium-extension/overlay/x-background.js:60-69 | after the splice and push, the updated record for the host is last: `lastError = error`, `lastSeen = now`, hits one more than before (missing hits counted as 0, a new record starting at 1); no shorter than the old buffer |
| XBackground.MergedKeepsOthers | omega-target-chromium-extension/overlay/x-background.js:60-69 | before the updated record the merge holds only records of the old buffer, and no record of another host is lost |
| XBackground.MergedIsKeep | omega-target-chromium-extension/overlay/x-background.js:60-69 | on a duplicate-free buffer, after the splice and push: every other record in its old order, then the updated record for the host |
| XBackground.Recorded | omega-target-chromium-extension/overlay/x-background.js:58-70 | after `record`: between 1 and 200 records, the last being the host's with `lastError = error`, `lastSeen = now` and hits one more than before, missing hits counted as 0; below the bound no record is lost |
| XBackground.TrimmedSnoc | omega-target-chromium-extension/overlay/x-background.js:70 | trimming keeps a duplicate-free buffer duplicate-free and drops only the oldest records, keeping all of them or exactly 200 |
| XBackground.RecordedKeepsOrder | omega-target-chromium-extension/overlay/x-background.js:58-70 | on a duplicate-free buffer, `record` keeps hosts unique, leaves the host only at the end, and keeps the newest other records in their old order: all of them below the bound, exactly 199 of them past it |
| XBackground.RecordedUnique | omega-target-chromium-extension/overlay/x-background.js:58-70 | `record` keeps a duplicate-free buffer duplicate-free |
| XBackground.PruneTarget | omega-target-chromium-extension/overlay/x-background.js:136-137 | a requested host is a target exactly when `normalize` gives a non-empty host, and the target is that host |
| XBackground.SpliceRemovesOne | omega-target-chromium-extension/overlay/x-background.js:138-141 | splicing out a found record shortens the buffer by exactly that record |
| XBackground.PruneStepRemovesMatch | omega-target-chromium-extension/overlay/x-background.js:135-144 | a requested host with a record removes exactly one record (the first for it); any other request leaves the buffer unchanged |
| XBackground.PruneStepBounds | omega-target-chromium-extension/overlay/x-background.js:136-142 | one pass removes at most one record, and only records of the buffer |
| XBackground.PruneAll | omega-target-chromium-extension/overlay/x-background.js:135-144 | the loop over the requested hosts removes at most one record per host, only old records remain, and removing none leaves the buffer as it was |
| XBackground.RemoveFirstIsKeep | omega-target-chromium-extension/overlay/x-background.js:138-140 | on a duplicate-free buffer, one splice after a filter is a filter by one more host |
| XBackground.PruneIsFilter | omega-target-chromium-extension/overlay/x-background.js:131-144 | on a duplicate-free buffer, the loop of splices equals filtering out every normalized requested host, keeping order |
| XBackground.PruneKeepsUnique | omega-target-chromium-extension/overlay/x-background.js:135-144 | a prune keeps a duplicate-free buffer duplicate-free |
| XBackground.PruneUnparsedHosts | omega-target-chromium-extension/overlay/x-background.js:136 | hosts the URL parser rejects prune nothing |
| XBackground.InsertByLastSeen | omega-target-chromium-extension/overlay/x-background.js:115 | inserting into a list sorted newest first keeps it sorted and adds exactly that record |
| XBackground.SortByLastSeen | omega-target-chromium-extension/overlay/x-background.js:115 | the GET list is sorted by `lastSeen` descending and is a permutation of the input |
| XBackground.ProxyResults | omega-target-chromium-extension/overlay/x-background.js:159-166 | one result per domain, in request order; `ok` exactly for a response with status 200 to 299; a status exactly when a response came back, and it is that response's status; an error exactly when the fetch threw, and it is the thrown message |
| XBackground.Admitted | omega-target-chromium-extension/overlay/x-background.js:74-86 | a signal reaches `record` exactly when its normalized host is non-empty and its pair is outside the debounce window |
| XBackground.Worker.constructor | omega-target-chromium-extension/overlay/x-background.js:4-5 | a new worker has an empty buffer and an empty debounce map |
| XBackground.Worker.Load | omega-target-chromium-extension/overlay/x-background.js:18-21 | the startup read makes the buffer the saved list |
| XBackground.Worker.Save | omega-target-chromium-extension/overlay/x-background.js:47-56 | `save()` stores the buffer; nothing else changes |
| XBackground.Worker.Debounced | omega-target-chromium-extension/overlay/x-background.js:37-44 | returns the gate's verdict; when admitted, records `now` under the pair's key and nothing else; when suppressed, changes nothing |
| XBackground.Worker.Trim | omega-target-chromium-extension/overlay/x-background.js:70 | the buffer becomes its newest 200 records |
| XBackground.Worker.Merge | omega-target-chromium-extension/overlay/x-background.js:60-69 | the splice and push: the buffer becomes the merged buffer; the saved list and the debounce map are unchanged |
| XBackground.Worker.Record | omega-target-chromium-extension/overlay/x-background.js:58-72 | the buffer becomes the merged and trimmed buffer, saved; at most 200 records, the updated record last, uniqueness preserved |
| XBackground.Worker.HandleError | omega-target-chromium-extension/overlay/x-background.js:74-87 | an admitted error is recorded under the event's error text, `'error'` when that is missing or empty and starts its window; any other event changes nothing |
| XBackground.Worker.HandleCompleted | omega-target-chromium-extension/overlay/x-background.js:89-103 | a missing status or one below 400 changes nothing; otherwise as HandleError, with the status in decimal as the error |
| XBackground.Worker.GetFailedHosts | omega-target-chromium-extension/overlay/x-background.js:113-120 | replies with the saved list sorted newest first, as a permutation of it, and changes nothing |
| XBackground.Worker.ClearFailedHosts | omega-target-chromium-extension/overlay/x-background.js:122-129 | replies `ok` with the old length; the buffer is empty and saved |
| XBackground.Worker.PruneHost | omega-target-chromium-extension/overlay/x-background.js:135-144 | one pass of the loop; reports whether it removed a record |
| XBackground.Worker.PruneFailedHosts | omega-target-chromium-extension/overlay/x-background.js:131-153 | the buffer becomes the loop's result; `pruned` is the number removed, at most one per host; the buffer is saved only when `pruned > 0`; a duplicate-free buffer stays duplicate-free; the reply is always `ok` |
| XBackground.Worker.HandleMessage | omega-target-chromium-extension/overlay/x-background.js:110-174 | GET replies with the saved list sorted; CLEAR and PRUNE reply and change the buffer, the saved list and the debounce map exactly as ClearFailedHosts and PruneFailedHosts do; GET and ADD_TO_PROXY change no state |
| FailureCatcher.NormalizeHost | failure-catcher/background.js:16-28 | None when the URL does not parse or the canonical host is an IPv4 or bracketed IPv6 literal; otherwise Some(canonical host), in both directions; the ignore list is not applied |
| FailureCatcher.Captured | failure-catcher/background.js:74 | `if (host)`: passes exactly the non-empty hosts |
| FailureCatcher.Appended | failure-catcher/background.js:65-66 | after the push and trim: the new failure last, before it the newest old entries in their order, all of them while the list fits in 200, exactly 199 of them past it |
| FailureCatcher.AppendedKeepsDuplicates | failure-catcher/background.js:65 | below the bound, an earlier entry for the same host stays and the new one is a second entry |
| FailureCatcher.AddedFailure | failure-catcher/background.js:52-69 | `addFailure` changes the ledger exactly when the pair is outside its debounce window, and the saved copy is either untouched or the new list |
| FailureCatcher.AddFailureDebounced | failure-catcher/background.js:53-59 | inside the window of the pair's last admission nothing changes |
| FailureCatcher.AddFailureIgnored | failure-catcher/background.js:60-64 | an ignore-listed host is never appended or saved, yet it starts the window: the map gains exactly the pair at `now`, so the pair is suppressed for the next 4000 ms |
| FailureCatcher.AddFailureKept | failure-catcher/background.js:65-68 | a kept failure is appended last, the list stays within 200, the saved copy is the new list, the window starts at `now` |
| FailureCatcher.PruneTargets | failure-catcher/background.js:99 | the targets are exactly the non-empty `normalizeHost('http://' + h)` results, at most one per requested host |
| FailureCatcher.Survivors | failure-catcher/background.js:102 | the survivors are exactly the entries whose host is not a target |
| FailureCatcher.SurvivorsConcat | failure-catcher/background.js:102 | the filter works piece by piece along the list, so survivors keep their order |
| FailureCatcher.SurvivorsNone | failure-catcher/background.js:102 | a list none of whose hosts is a target survives whole |
| FailureCatcher.FoldReply | failure-catcher/background.js:116-130 | a failed POST adds none and fails all; otherwise `ok` and `status` are passed on, each of the service's `added` / `failed` arrays is used where present, and a missing one falls back to all domains or none by `ok` |
| FailureCatcher.FoldReplyPartitions | failure-catcher/background.js:123-124 | without lists from the service, every domain is reported exactly once: all added on `ok`, all failed otherwise |
| FailureCatcher.Worker.constructor | failure-catcher/background.js:8-9 | a new worker has an empty list and an empty debounce map |
| FailureCatcher.Worker.LoadFromStorage | failure-catcher/background.js:30-36 | the startup read makes the list the saved list |
| FailureCatcher.Worker.SaveToStorage | failure-catcher/background.js:38-46 | the save stores the list; nothing else changes |
| FailureCatcher.Worker.AddFailure | failure-catcher/background.js:52-69 | the new state is the debounce, ignore, append and trim step of `AddedFailure`, whose cases the three lemmas above state |
| FailureCatcher.Worker.HandleCompleted | failure-catcher/background.js:71-76 | a status of 400 or more on a non-empty normalized host is added under the status in decimal; anything else changes nothing |
| FailureCatcher.Worker.HandleError | failure-catcher/background.js:78-81 | a non-empty normalized host is added under the event's error text, `'error'` when that is missing or empty; anything else changes nothing |
| FailureCatcher.Worker.ClearFailedHosts | failure-catcher/background.js:91-97 | replies `ok` with the old length; the list is empty and saved; the debounce map is kept |
| FailureCatcher.Worker.PruneFailedHosts | failure-catcher/background.js:98-106 | the list becomes its survivors, `pruned` is the old length minus the new one, and the list is saved in every case |
| FailureCatcher.Worker.HandleMessage | failure-catcher/background.js:87-134 | GET replies with the list in memory; CLEAR and PRUNE reply and change the list, the saved copy and the debounce map exactly as ClearFailedHosts and PruneFailedHosts do; ADD_TO_PROXY replies with the fold of the POST's outcome; only CLEAR and PRUNE change state |
| Variants.NormalizersAgree | failure-catcher/background.js:16-28 | where the policies overlap, the two normalizers give the same host |
| Variants.PruneBareHosts | omega-target-chromium-extension/overlay/x-background.js:136 | with a parser that rejects bare hosts, the merge-style prune of bare hosts removes nothing; the append-only prune removes every entry for them |
| Examples.NamedHostNormalized | omega-target-chromium-extension/overlay/x-background.js:23-35 | `www.example.com` becomes `example.com` in both workers |
| Examples.IpLiteralRejected | omega-target-chromium-extension/overlay/x-background.js:31 | `10.0.0.1` is rejected by both workers |
| Examples.Ipv6LiteralRejected | failure-catcher/background.js:22 | `[::1]` is rejected by both workers |
| Examples.TrackerHostScreened | omega-target-chromium-extension/overlay/x-background.js:33 | `sub.doubleclick.net` is rejected by `normalize`, kept by `normalizeHost` and matched by the ignore list |
| Examples.UnparsedUrlRejected | failure-catcher/background.js:24-27 | a URL the parser rejects is dropped by both workers |

## Left out

- URL parsing (`new URL(u).hostname`) is a parameter, not a model of the WHATWG URL standard.
- Lower-casing covers ASCII only. A parser returns WHATWG hostnames in ASCII (punycode), so nothing else reaches it.
- The timer `setTimeout(() => recent.delete(key), 4000)` is left out, so the merge-style debounce map only grows.
- Deleting an entry older than the window changes no verdict. But the timer can also fire just after the same pair was admitted again, and then it deletes that newer entry. A repeat within 4000 ms of that admission is then not suppressed. The model does not capture this race.
- The append-only worker's `debounceMap` has no expiry in the source. The model keeps it unbounded, as written.
- `chrome.storage.session` is asynchronous. The model reduces each read and write to a synchronous copy between the list and `stored`. It does not model storage errors (`chrome.runtime.lastError`) or interleaving with other events.
- The `failed_hosts_updated` broadcast, `console.log` output, the heartbeat timers and `navigator.userAgent` have no effect on state.
- `Date.now()` is the parameter `now`.
- x-background.js reads the clock twice per signal, once in `debounced` and once in `record`. The model passes one `now` to both, so the record's `lastSeen` equals the debounce time rather than a few milliseconds later.
- The merge-style ADD_TO_PROXY has two parts that are not modelled: the `fetch` calls and the `Promise.all` fan-out. `XBackground.ProxyResults` maps the per-domain outcomes, which are given as a parameter.
- The append-only ADD_TO_PROXY has two parts that are not modelled: the POST and the JSON parse. `FailureCatcher.FoldReply` folds their outcome.
- A JSON body that is not an object, or whose `added` / `failed` is truthy but not an array, is not modelled. An absent or non-JSON body is modelled as "no lists".
- XBackground.ProxyResults: does not model the order in which the fetches complete, only the order of the joined result.
- XBackground.SortByLastSeen: states sorted and permutation, not stability among records with equal `lastSeen`.
- The popup scripts are not part of this model. The merge-style popup (`omega-target-chromium-extension/overlay/popup.js`) prunes only the domains that ADD_TO_PROXY reported `ok`. That is a promise of the caller, not of the worker. The append-only popup (`failure-catcher/popup.js`) never sends PRUNE_FAILED_HOSTS.
- Messages whose `type` is unknown get no reply in the model (`NoReply`). The keep-alive `return true` is not modelled.
