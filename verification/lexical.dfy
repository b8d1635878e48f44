/** The features derived from the URL text and its parsed components alone:
    no network access is involved, so each is a plain string predicate. */
module Lexical {
  import opened Wrappers
  import opened Scores
  import opened Text

  /** What `urlparse` yields and the extractor reads: the scheme, the
      hostname (already lower-cased by the parser, absent when there is none)
      and the port as written in the URL (absent when none is written). */
  datatype Parsed = Parsed(scheme: string, hostname: Option<string>, port: Option<nat>)

  /** The host every domain test uses: the hostname, or "" when there is none. */
  function Domain(p: Parsed): string {
    p.hostname.GetOr("")
  }

  /** Reading `parsed.port` raises unless the written port lies in 0..65535. */
  const MaxPort: nat := 65535

  predicate PortValid(p: Parsed) {
    p.port.None? || p.port.value <= MaxPort
  }

  /** URLs at least this long are scored suspicious. */
  const LengthLimit: nat := 54

  /** `url.find("//", 8)`: the search for a second "//" starts here. */
  const RedirectSearchFrom: nat := 8

  /** The shortening-service fragments searched for in the lower-cased URL. */
  const ShortenerFragments: seq<string> := ["bit.ly", "tinyurl", "goo.gl", "ow.ly", "t.co"]

  // ---------------------------------------------------------------------
  // The dotted-quad test `re.fullmatch(r"\d+\.\d+\.\d+\.\d+", domain)`
  // ---------------------------------------------------------------------

  /** The length of the longest all-digit prefix of `s`. */
  function LeadingDigits(s: string): (n: nat)
    ensures n <= |s|
    ensures AllDigits(s[..n])
    ensures n < |s| ==> !IsDigit(s[n])
  {
    if s == [] || !IsDigit(s[0]) then 0
    else
      var k := LeadingDigits(s[1..]);
      assert s[..k + 1] == [s[0]] + s[1..][..k];
      k + 1
  }

  /** `s` is `runs` non-empty digit runs joined by single dots, decided by a
      greedy left-to-right scan: a digit run can never swallow a dot, so the
      maximal digit prefix is the only candidate for the first run. */
  predicate DigitRuns(s: string, runs: nat)
    requires runs >= 1
    decreases runs
  {
    var d := LeadingDigits(s);
    0 < d && if runs == 1 then d == |s| else d < |s| && s[d] == '.' && DigitRuns(s[d + 1..], runs - 1)
  }

  /** The language of the regular expression `\d+(\.\d+){runs-1}` (ASCII digits). */
  ghost predicate DigitRunsSpec(s: string, runs: nat)
    requires runs >= 1
    decreases runs
  {
    if runs == 1 then 0 < |s| && AllDigits(s)
    else exists i :: 0 < i < |s| && AllDigits(s[..i]) && s[i] == '.' && DigitRunsSpec(s[i + 1..], runs - 1)
  }

  /** A digit prefix that ends at a non-digit is the maximal one. */
  lemma {:induction false} LeadingDigitsAt(s: string, i: nat)
    requires i <= |s| && AllDigits(s[..i])
    requires i == |s| || !IsDigit(s[i])
    ensures LeadingDigits(s) == i
  {
    if i > 0 {
      assert s[..i][0] == s[0];
      var rest := s[1..];
      assert rest[..i - 1] == s[..i][1..];
      assert i - 1 == |rest| || rest[i - 1] == s[i];
      LeadingDigitsAt(rest, i - 1);
    }
  }

  /** Every string the greedy scan accepts matches the regular expression. */
  lemma {:induction false} DigitRunsSound(s: string, runs: nat)
    requires runs >= 1 && DigitRuns(s, runs)
    ensures DigitRunsSpec(s, runs)
    decreases runs
  {
    var d := LeadingDigits(s);
    if runs > 1 {
      DigitRunsSound(s[d + 1..], runs - 1);
      assert 0 < d < |s| && AllDigits(s[..d]) && s[d] == '.' && DigitRunsSpec(s[d + 1..], runs - 1);
    }
  }

  /** Every string matching the regular expression is accepted by the scan:
      the first run of a match always ends at the first non-digit. */
  lemma {:induction false} DigitRunsComplete(s: string, runs: nat)
    requires runs >= 1 && DigitRunsSpec(s, runs)
    ensures DigitRuns(s, runs)
    decreases runs
  {
    if runs == 1 {
      assert s[..|s|] == s;
      LeadingDigitsAt(s, |s|);
    } else {
      var i := FirstRunEnd(s, runs);
      DigitRunsComplete(s[i + 1..], runs - 1);
      DigitRunsStep(s, runs, i);
    }
  }

  /** Where the first run of a match ends. */
  lemma FirstRunEnd(s: string, runs: nat) returns (i: nat)
    requires runs > 1 && DigitRunsSpec(s, runs)
    ensures 0 < i < |s| && AllDigits(s[..i]) && s[i] == '.' && DigitRunsSpec(s[i + 1..], runs - 1)
  {
    i :| 0 < i < |s| && AllDigits(s[..i]) && s[i] == '.' && DigitRunsSpec(s[i + 1..], runs - 1);
  }

  /** One step of the scan: a digit run ended by a dot is the maximal one,
      so the scan goes on from just after the dot. */
  lemma DigitRunsStep(s: string, runs: nat, i: nat)
    requires runs > 1 && 0 < i < |s| && AllDigits(s[..i]) && s[i] == '.'
    requires DigitRuns(s[i + 1..], runs - 1)
    ensures DigitRuns(s, runs)
  {
    LeadingDigitsAt(s, i);
  }

  /** The greedy scan accepts exactly the strings of the regular expression. */
  lemma DigitRunsIsSpec(s: string, runs: nat)
    requires runs >= 1
    ensures DigitRuns(s, runs) <==> DigitRunsSpec(s, runs)
  {
    if DigitRuns(s, runs) {
      DigitRunsSound(s, runs);
    }
    if DigitRunsSpec(s, runs) {
      DigitRunsComplete(s, runs);
    }
  }

  // ---------------------------------------------------------------------
  // The lexical features, one function per feature
  // ---------------------------------------------------------------------

  /** having_IP_Address: suspicious when the host is a dotted quad of digit runs. */
  function HavingIpAddress(domain: string): (r: Binary)
    ensures r == Suspicious <==> DigitRunsSpec(domain, 4)
  {
    DigitRunsIsSpec(domain, 4);
    Flag(DigitRuns(domain, 4))
  }

  /** URL_Length: suspicious from 54 characters on. */
  function UrlLength(url: string): Binary {
    Flag(|url| >= LengthLimit)
  }

  /** Shortining_Service: suspicious when a shortener fragment occurs anywhere
      in the lower-cased URL; a fragment inside a longer host name counts. */
  function ShorteningService(url: string): (r: Binary)
    ensures r == Suspicious <==> exists f :: f in ShortenerFragments && Occurs(Lower(url), f)
  {
    var lowered := Lower(url);
    forall f | f in ShortenerFragments {
      ContainsIsOccurs(lowered, f);
    }
    Flag(exists f :: f in ShortenerFragments && Contains(lowered, f))
  }

  /** having_At_Symbol: suspicious when the URL holds an '@'. */
  function HavingAtSymbol(url: string): Binary {
    Flag('@' in url)
  }

  /** double_slash_redirecting: suspicious when "//" occurs at index 8 or later. */
  function DoubleSlashRedirecting(url: string): (r: Binary)
    ensures r == Suspicious <==> exists i :: RedirectSearchFrom <= i && OccursAt(url, "//", i)
  {
    Flag(Find(url, "//", RedirectSearchFrom) != -1)
  }

  /** Prefix_Suffix: suspicious when the host (not the whole URL) holds a '-'. */
  function PrefixSuffix(domain: string): Binary {
    Flag('-' in domain)
  }

  /** having_Sub_Domain: suspicious when the host holds more than one dot. */
  function HavingSubDomain(domain: string): (r: Binary)
    ensures r == Suspicious <==> multiset(domain)['.'] > 1
  {
    Flag(CountChar(domain, '.') > 1)
  }

  /** SSLfinal_State: legitimate only for the "https" scheme. */
  function SslFinalState(scheme: string): Binary {
    Flag(scheme != "https")
  }

  /** port: suspicious when a port is written and is not 0 (Python truthiness). */
  function PortFeature(port: Option<nat>): Binary {
    Flag(port.Some? && port.value != 0)
  }

  /** HTTPS_token: suspicious when "https" occurs inside the lower-cased host. */
  function HttpsToken(domain: string): (r: Binary)
    ensures r == Suspicious <==> Occurs(Lower(domain), "https")
  {
    ContainsIsOccurs(Lower(domain), "https");
    Flag(Contains(Lower(domain), "https"))
  }

  /** Abnormal_URL: suspicious when the host text does not occur in the URL. */
  function AbnormalUrl(domain: string, url: string): (r: Binary)
    ensures r == Suspicious <==> !Occurs(url, domain)
  {
    ContainsIsOccurs(url, domain);
    Flag(!Contains(url, domain))
  }

  /** The shortener test is a plain substring search, so "t.co" inside
      "microsoft.com" marks an ordinary URL as shortened. */
  lemma ShortenerFragmentInsideHost()
    ensures ShorteningService("https://microsoft.com") == Suspicious
  {
    var lowered := Lower("https://microsoft.com");
    assert lowered[16..20] == "t.co";
    assert OccursAt(lowered, "t.co", 16);
    assert ShortenerFragments[4] == "t.co" && Occurs(lowered, "t.co");
  }
}
