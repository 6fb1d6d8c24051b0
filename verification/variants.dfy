/** How the two workers' normalization and pruning relate. */
module Variants {
  import opened Wrappers
  import opened Text
  import opened Signals
  import XBackground
  import FailureCatcher

  /** The two normalizers agree where their policies overlap: a host the merge-style
      worker keeps is kept by the append-only one unless it is bracketed, and a host
      the append-only one keeps is kept by the merge-style one unless it holds a colon
      or an ignore-list entry (which the append-only worker checks later, in addFailure). */
  lemma NormalizersAgree(parse: UrlParser, url: string)
    ensures var x := XBackground.Normalize(parse, url);
      x.Some? && !StartsWith(x.value, "[") ==> FailureCatcher.NormalizeHost(parse, url) == x
    ensures var f := FailureCatcher.NormalizeHost(parse, url);
      f.Some? && ':' !in f.value && !ShouldIgnore(f.value) ==> XBackground.Normalize(parse, url) == f
  {
  }

  /** The popup prunes with bare host names such as `example.com`. A parser that
      rejects them as URLs but reads `http://` + host back as the host itself makes
      the merge-style prune remove nothing, while the append-only prune, which adds
      the scheme first, removes every entry for those hosts. */
  lemma PruneBareHosts(parse: UrlParser, records: seq<XBackground.FailureRecord>,
                       failures: seq<FailureCatcher.Failure>, hosts: seq<string>)
    requires forall j :: 0 <= j < |hosts| ==> parse(hosts[j]).None? && parse("http://" + hosts[j]) == Some(hosts[j])
    requires forall j :: 0 <= j < |hosts| ==>
      hosts[j] != "" && IsLower(hosts[j]) && !StartsWith(hosts[j], "www.")
      && !IsDottedQuad(hosts[j]) && !IsBracketedHex(hosts[j])
    ensures XBackground.PruneAll(parse, records, hosts) == records
    ensures forall x :: x in FailureCatcher.Survivors(failures, FailureCatcher.PruneTargets(parse, hosts)) ==>
      x in failures && x.host !in hosts
  {
    XBackground.PruneUnparsedHosts(parse, records, hosts);
    var targets := FailureCatcher.PruneTargets(parse, hosts);
    forall j | 0 <= j < |hosts| ensures hosts[j] in targets {
      var h := hosts[j];
      CanonicalFixed(h);
      assert FailureCatcher.NormalizeHost(parse, "http://" + h) == Some(h);
    }
  }
}
