/** The worked normalization cases: a `www.` host, an IPv4 literal, an
    ignore-listed host and a URL that does not parse. */
module Examples {
  import opened Wrappers
  import opened Text
  import opened Signals
  import XBackground
  import FailureCatcher

  /** `www.example.com` becomes `example.com`. */
  lemma ExampleNamedHost()
    ensures Canonical("www.example.com") == "example.com"
  {
    assert IsLower("example.com");
    CanonicalStripsWww("example.com");
    assert "www." + "example.com" == "www.example.com";
  }

  /** No ignore-list entry occurs in `example.com`. */
  lemma ExampleNamedHostNotIgnored()
    ensures !ShouldIgnore("example.com")
  {
    var h := "example.com";
    // Each entry has a letter the host lacks: the first letter of every entry
    // except `adsystem` (index 5), whose first letter `a` occurs in the host and
    // whose second letter `d` does not.
    forall i | 0 <= i < |IGNORE| ensures !Contains(h, IGNORE[i]) {
      if i == 5 {
        MissingCharNotContained(h, IGNORE[i], 1);
      } else {
        MissingCharNotContained(h, IGNORE[i], 0);
      }
    }
    NoIgnoreEntry(h);
  }

  /** No policy rejects `example.com`. */
  lemma ExampleNamedHostAdmitted()
    ensures !IsDottedQuad("example.com") && ':' !in "example.com" && !ShouldIgnore("example.com")
  {
    if IsDottedQuad("example.com") {
      DottedQuadStartsWithDigit("example.com");
    }
    ExampleNamedHostNotIgnored();
  }

  /** `10.0.0.1` is a dotted IPv4 literal. */
  lemma ExampleIpLiteralIsQuad()
    ensures IsDottedQuad("10.0.0.1")
  {
    OctetsMakeQuad("10", "0", "0", "1");
    assert "10" + "." + "0" + "." + "0" + "." + "1" == "10.0.0.1";
  }

  /** `10.0.0.1` is its own canonical form. */
  lemma ExampleIpLiteral()
    ensures Canonical("10.0.0.1") == "10.0.0.1" && IsDottedQuad("10.0.0.1")
  {
    var h := "10.0.0.1";
    assert IsLower(h);
    assert !StartsWith(h, "www.") by {
      assert h[0] != "www."[0];
    }
    CanonicalFixed(h);
    ExampleIpLiteralIsQuad();
  }

  /** `sub.doubleclick.net` is its own canonical form. */
  lemma ExampleTracker()
    ensures Canonical("sub.doubleclick.net") == "sub.doubleclick.net"
  {
    var h := "sub.doubleclick.net";
    assert IsLower(h);
    assert !StartsWith(h, "www.") by {
      assert h[0] != "www."[0];
    }
    CanonicalFixed(h);
  }

  /** `sub.doubleclick.net` contains an ignore-list entry. */
  lemma ExampleTrackerIgnored()
    ensures ShouldIgnore("sub.doubleclick.net")
  {
    ContainsSuffix("sub.", "doubleclick.net");
    assert "sub." + "doubleclick.net" == "sub.doubleclick.net";
    assert "doubleclick.net" in IGNORE;
  }

  /** `sub.doubleclick.net` is no IP literal. */
  lemma ExampleTrackerNotIp()
    ensures !IsDottedQuad("sub.doubleclick.net") && !IsBracketedHex("sub.doubleclick.net")
  {
    if IsDottedQuad("sub.doubleclick.net") {
      DottedQuadStartsWithDigit("sub.doubleclick.net");
    }
  }

  /** `[::1]` is a bracketed IPv6 literal. */
  lemma ExampleIpv6Literal()
    ensures Canonical("[::1]") == "[::1]" && IsBracketedHex("[::1]")
  {
    var h := "[::1]";
    assert IsLower(h);
    assert !StartsWith(h, "www.") by {
      assert h[0] != "www."[0];
    }
    CanonicalFixed(h);
  }

  // The worked cases below take the hostname a URL parser reports for the URL
  // (already lower-case, as WHATWG hostnames are) and run both normalizers on it.

  /** `www.example.com`: both workers keep `example.com`. */
  lemma NamedHostNormalized(parse: UrlParser, url: string)
    requires parse(url) == Some("www.example.com")
    ensures XBackground.Normalize(parse, url) == Some("example.com")
    ensures FailureCatcher.NormalizeHost(parse, url) == Some("example.com")
  {
    ExampleNamedHost();
    ExampleNamedHostAdmitted();
    assert !IsBracketedHex("example.com");
  }

  /** `10.0.0.1`: both workers reject the IPv4 literal. */
  lemma IpLiteralRejected(parse: UrlParser, url: string)
    requires parse(url) == Some("10.0.0.1")
    ensures XBackground.Normalize(parse, url) == None
    ensures FailureCatcher.NormalizeHost(parse, url) == None
  {
    ExampleIpLiteral();
  }

  /** `[::1]`: both workers reject the IPv6 literal, one for its colons, the other
      for its brackets. */
  lemma Ipv6LiteralRejected(parse: UrlParser, url: string)
    requires parse(url) == Some("[::1]")
    ensures XBackground.Normalize(parse, url) == None
    ensures FailureCatcher.NormalizeHost(parse, url) == None
  {
    ExampleIpv6Literal();
    assert "[::1]"[1] == ':';
  }

  /** `sub.doubleclick.net`: the merge-style worker rejects it in `normalize`; the
      append-only worker keeps it here and screens it later, in `addFailure`. */
  lemma TrackerHostScreened(parse: UrlParser, url: string)
    requires parse(url) == Some("sub.doubleclick.net")
    ensures XBackground.Normalize(parse, url) == None
    ensures FailureCatcher.NormalizeHost(parse, url) == Some("sub.doubleclick.net")
    ensures ShouldIgnore(FailureCatcher.NormalizeHost(parse, url).value)
  {
    ExampleTracker();
    ExampleTrackerIgnored();
    ExampleTrackerNotIp();
  }

  /** A URL the parser rejects is dropped by both workers. */
  lemma UnparsedUrlRejected(parse: UrlParser, url: string)
    requires parse(url) == None
    ensures XBackground.Normalize(parse, url) == None
    ensures FailureCatcher.NormalizeHost(parse, url) == None
  {
  }
}
