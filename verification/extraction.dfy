/** The feature-vector assembler: `extract_features` with its network
    lookups turned into inputs. The WHOIS age, the DNS outcome and the fetched
    page arrive as a `Lookups` value; the result is the flat mapping from the
    30 feature names to -1, 0 or 1. */
module Extraction {
  import opened Wrappers
  import opened Scores
  import opened Text
  import opened Lexical
  import opened Content
  import opened Collections

  /** The outcomes of the three best-effort lookups, each failure-isolated:
      the domain's age in days when WHOIS produced a creation date, whether
      an A record resolved, and the fetched page when a response came back. */
  datatype Lookups = Lookups(whoisAge: Option<int>, dnsOk: bool, page: Option<Page>)

  /** Domains registered more than this many days ago score legitimate. */
  const AgeLimitDays: int := 365

  /** The score shared by Domain_registeration_length and age_of_domain;
      a failed WHOIS lookup falls back to suspicious. */
  function DomainAge(whoisAge: Option<int>): Binary {
    match whoisAge
    case Some(days) => Flag(days <= AgeLimitDays)
    case None => Suspicious
  }

  /** DNSRecord: legitimate exactly when the A record resolved. */
  function DnsRecord(resolved: bool): Binary {
    Flag(!resolved)
  }

  /** The 24 measured features of one URL, each suspicious or legitimate. */
  datatype FeatureVector = FeatureVector(
    havingIpAddress: Binary,
    urlLength: Binary,
    shorteningService: Binary,
    havingAtSymbol: Binary,
    doubleSlashRedirecting: Binary,
    prefixSuffix: Binary,
    havingSubDomain: Binary,
    sslFinalState: Binary,
    domainRegistrationLength: Binary,
    port: Binary,
    httpsToken: Binary,
    content: ContentScores,
    abnormalUrl: Binary,
    ageOfDomain: Binary,
    dnsRecord: Binary
  )

  /** The measured features of a URL, given its parsed parts and the lookups. */
  function Measure(url: string, p: Parsed, net: Lookups): FeatureVector {
    var domain := Domain(p);
    var age := DomainAge(net.whoisAge);
    FeatureVector(
      havingIpAddress := HavingIpAddress(domain),
      urlLength := UrlLength(url),
      shorteningService := ShorteningService(url),
      havingAtSymbol := HavingAtSymbol(url),
      doubleSlashRedirecting := DoubleSlashRedirecting(url),
      prefixSuffix := PrefixSuffix(domain),
      havingSubDomain := HavingSubDomain(domain),
      sslFinalState := SslFinalState(p.scheme),
      domainRegistrationLength := age,
      port := PortFeature(p.port),
      httpsToken := HttpsToken(domain),
      content := ContentFeatures(domain, net.page),
      abnormalUrl := AbnormalUrl(domain, url),
      ageOfDomain := age,
      dnsRecord := DnsRecord(net.dnsOk)
    )
  }

  /** The keys of the extractor's mapping: the 24 measured features, then
      the six that are never measured. (The order is the one `Values` uses;
      the mapping itself is looked up by key.) */
  const ExtractedNames: seq<string> := LexicalNames + ContentNames + ProbeNames + DefaultNames

  /** The names of positions 0 to 11. */
  const LexicalNames: seq<string> := [
    "having_IP_Address", "URL_Length", "Shortining_Service", "having_At_Symbol",
    "double_slash_redirecting", "Prefix_Suffix", "having_Sub_Domain", "SSLfinal_State",
    "Domain_registeration_length", "age_of_domain", "port", "HTTPS_token"
  ]

  /** The names of positions 12 to 21. */
  const ContentNames: seq<string> := [
    "Request_URL", "URL_of_Anchor", "Links_in_tags", "SFH", "Submitting_to_email",
    "Redirect", "on_mouseover", "RightClick", "popUpWidnow", "Iframe"
  ]

  /** The names of positions 22 and 23. */
  const ProbeNames: seq<string> := ["Abnormal_URL", "DNSRecord"]

  /** The names of positions 24 to 29. */
  const DefaultNames: seq<string> := [
    "Favicon", "web_traffic", "Page_Rank",
    "Google_Index", "Links_pointing_to_page", "Statistical_report"
  ]

  /** The values under `ExtractedNames`, position by position. */
  function Values(v: FeatureVector): (vs: seq<int>)
    ensures |vs| == |ExtractedNames|
    ensures forall i :: 0 <= i < |vs| ==> Suspicious <= vs[i] <= Legitimate
    ensures forall i :: 0 <= i < MeasuredCount ==> vs[i] == Suspicious || vs[i] == Legitimate
  {
    Measured(v) + StaticDefaults
  }

  /** How many features are measured; the rest take fixed defaults. */
  const MeasuredCount: nat := 24

  /** The measured features, each suspicious or legitimate. */
  function Measured(v: FeatureVector): (vs: seq<Binary>)
    ensures |vs| == MeasuredCount
  {
    LexicalValues(v) + ContentValues(v.content) + ProbeValues(v)
  }

  /** Positions 0 to 11: the lexical, WHOIS and port features. */
  function LexicalValues(v: FeatureVector): seq<Binary> {
    [ v.havingIpAddress, v.urlLength, v.shorteningService, v.havingAtSymbol,
      v.doubleSlashRedirecting, v.prefixSuffix, v.havingSubDomain, v.sslFinalState,
      v.domainRegistrationLength, v.ageOfDomain, v.port, v.httpsToken ]
  }

  /** Positions 12 to 21: the features the fetched page decides. */
  function ContentValues(c: ContentScores): seq<Binary> {
    [ c.requestUrl, c.urlOfAnchor, c.linksInTags, c.sfh, c.submittingToEmail,
      c.redirect, c.onMouseover, c.rightClick, c.popUpWindow, c.iframe ]
  }

  /** Positions 22 and 23: Abnormal_URL and DNSRecord. */
  function ProbeValues(v: FeatureVector): seq<Binary> {
    [ v.abnormalUrl, v.dnsRecord ]
  }

  /** Positions 24 to 29: features the training data has but that are never
      measured; each takes a fixed default. */
  const StaticDefaults: seq<int> := [
    Legitimate,   // Favicon
    Neutral,      // web_traffic
    Neutral,      // Page_Rank
    Legitimate,   // Google_Index
    Neutral,      // Links_pointing_to_page
    Legitimate    // Statistical_report
  ]

  /** No extracted name is repeated: each group is repetition-free and no
      two groups share a name. */
  lemma ExtractedNamesDistinct()
    ensures Distinct(ExtractedNames)
  {
    NameGroupsDistinct();
    NameGroupsDisjoint();
    DistinctConcat(LexicalNames, ContentNames);
    DistinctConcat(LexicalNames + ContentNames, ProbeNames);
    DistinctConcat(LexicalNames + ContentNames + ProbeNames, DefaultNames);
  }

  /** No group repeats a name. */
  lemma NameGroupsDistinct()
    ensures Distinct(LexicalNames) && Distinct(ContentNames)
    ensures Distinct(ProbeNames) && Distinct(DefaultNames)
  {
  }

  /** No group repeats a name of an earlier group. */
  lemma NameGroupsDisjoint()
    ensures Disjoint(LexicalNames, ContentNames)
    ensures Disjoint(LexicalNames + ContentNames, ProbeNames)
    ensures Disjoint(LexicalNames + ContentNames + ProbeNames, DefaultNames)
  {
  }

  /** The flat mapping of a feature vector, keyed by the training-data names. */
  function AsMap(v: FeatureVector): (r: map<string, int>)
    ensures r.Keys == Elements(ExtractedNames)
    ensures forall i :: 0 <= i < |ExtractedNames| ==> ExtractedNames[i] in r && r[ExtractedNames[i]] == Values(v)[i]
  {
    ExtractedNamesDistinct();
    Zip(ExtractedNames, Values(v))
  }

  /** The mapping's values for the features of the URL text. */
  lemma UrlEntries(v: FeatureVector)
    ensures var r := AsMap(v);
      && MapsTo(r, "URL_Length", v.urlLength)
      && MapsTo(r, "Shortining_Service", v.shorteningService)
      && MapsTo(r, "having_At_Symbol", v.havingAtSymbol)
      && MapsTo(r, "double_slash_redirecting", v.doubleSlashRedirecting)
  {
    assert ExtractedNames[1] == "URL_Length" && Values(v)[1] == v.urlLength;
    assert ExtractedNames[2] == "Shortining_Service" && Values(v)[2] == v.shorteningService;
    assert ExtractedNames[3] == "having_At_Symbol" && Values(v)[3] == v.havingAtSymbol;
    assert ExtractedNames[4] == "double_slash_redirecting" && Values(v)[4] == v.doubleSlashRedirecting;
  }

  /** The mapping's values for the features of the host. */
  lemma DomainEntries(v: FeatureVector)
    ensures var r := AsMap(v);
      && MapsTo(r, "having_IP_Address", v.havingIpAddress)
      && MapsTo(r, "Prefix_Suffix", v.prefixSuffix)
      && MapsTo(r, "having_Sub_Domain", v.havingSubDomain)
      && MapsTo(r, "HTTPS_token", v.httpsToken)
      && MapsTo(r, "Abnormal_URL", v.abnormalUrl)
  {
    assert ExtractedNames[0] == "having_IP_Address" && Values(v)[0] == v.havingIpAddress;
    assert ExtractedNames[5] == "Prefix_Suffix" && Values(v)[5] == v.prefixSuffix;
    assert ExtractedNames[6] == "having_Sub_Domain" && Values(v)[6] == v.havingSubDomain;
    assert ExtractedNames[11] == "HTTPS_token" && Values(v)[11] == v.httpsToken;
    assert ExtractedNames[22] == "Abnormal_URL" && Values(v)[22] == v.abnormalUrl;
  }

  /** The mapping's values for the scheme, the port and the WHOIS and DNS lookups. */
  lemma ServiceEntries(v: FeatureVector)
    ensures var r := AsMap(v);
      && MapsTo(r, "SSLfinal_State", v.sslFinalState)
      && MapsTo(r, "port", v.port)
      && MapsTo(r, "Domain_registeration_length", v.domainRegistrationLength)
      && MapsTo(r, "age_of_domain", v.ageOfDomain)
      && MapsTo(r, "DNSRecord", v.dnsRecord)
  {
    assert ExtractedNames[7] == "SSLfinal_State" && Values(v)[7] == v.sslFinalState;
    assert ExtractedNames[10] == "port" && Values(v)[10] == v.port;
    assert ExtractedNames[8] == "Domain_registeration_length" && Values(v)[8] == v.domainRegistrationLength;
    assert ExtractedNames[9] == "age_of_domain" && Values(v)[9] == v.ageOfDomain;
    assert ExtractedNames[23] == "DNSRecord" && Values(v)[23] == v.dnsRecord;
  }

  /** The mapping's values for the ratio, form-handler and e-mail features. */
  lemma FormEntries(v: FeatureVector)
    ensures var r := AsMap(v);
      && MapsTo(r, "Request_URL", v.content.requestUrl)
      && MapsTo(r, "URL_of_Anchor", v.content.urlOfAnchor)
      && MapsTo(r, "Links_in_tags", v.content.linksInTags)
      && MapsTo(r, "SFH", v.content.sfh)
      && MapsTo(r, "Submitting_to_email", v.content.submittingToEmail)
  {
    assert ExtractedNames[12] == "Request_URL" && Values(v)[12] == v.content.requestUrl;
    assert ExtractedNames[13] == "URL_of_Anchor" && Values(v)[13] == v.content.urlOfAnchor;
    assert ExtractedNames[14] == "Links_in_tags" && Values(v)[14] == v.content.linksInTags;
    assert ExtractedNames[15] == "SFH" && Values(v)[15] == v.content.sfh;
    assert ExtractedNames[16] == "Submitting_to_email" && Values(v)[16] == v.content.submittingToEmail;
  }

  /** The mapping's values for the redirect, script and iframe features. */
  lemma ScriptEntries(v: FeatureVector)
    ensures var r := AsMap(v);
      && MapsTo(r, "Redirect", v.content.redirect)
      && MapsTo(r, "on_mouseover", v.content.onMouseover)
      && MapsTo(r, "RightClick", v.content.rightClick)
      && MapsTo(r, "popUpWidnow", v.content.popUpWindow)
      && MapsTo(r, "Iframe", v.content.iframe)
  {
    assert ExtractedNames[17] == "Redirect" && Values(v)[17] == v.content.redirect;
    assert ExtractedNames[18] == "on_mouseover" && Values(v)[18] == v.content.onMouseover;
    assert ExtractedNames[19] == "RightClick" && Values(v)[19] == v.content.rightClick;
    assert ExtractedNames[20] == "popUpWidnow" && Values(v)[20] == v.content.popUpWindow;
    assert ExtractedNames[21] == "Iframe" && Values(v)[21] == v.content.iframe;
  }

  /** The mapping's values for the six unmeasured features. */
  lemma DefaultEntries(v: FeatureVector)
    ensures var r := AsMap(v);
      && MapsTo(r, "Favicon", Legitimate)
      && MapsTo(r, "web_traffic", Neutral)
      && MapsTo(r, "Page_Rank", Neutral)
      && MapsTo(r, "Google_Index", Legitimate)
      && MapsTo(r, "Links_pointing_to_page", Neutral)
      && MapsTo(r, "Statistical_report", Legitimate)
  {
    assert ExtractedNames[24] == "Favicon" && Values(v)[24] == Legitimate;
    assert ExtractedNames[25] == "web_traffic" && Values(v)[25] == Neutral;
    assert ExtractedNames[26] == "Page_Rank" && Values(v)[26] == Neutral;
    assert ExtractedNames[27] == "Google_Index" && Values(v)[27] == Legitimate;
    assert ExtractedNames[28] == "Links_pointing_to_page" && Values(v)[28] == Neutral;
    assert ExtractedNames[29] == "Statistical_report" && Values(v)[29] == Legitimate;
  }

  /** `extract_features(url)` for a URL whose port can be read. */
  function Features(url: string, p: Parsed, net: Lookups): map<string, int>
    requires PortValid(p)
  {
    AsMap(Measure(url, p, net))
  }

  /** The one failure of extraction this model represents: reading a port
      outside 0..65535 raises. */
  datatype ExtractError = PortOutOfRange(port: nat)

  /** `extract_features(url)`: the feature mapping, or the error raised by
      reading an out-of-range port, the one exception this model represents.
      No lookup outcome makes it fail. */
  function ExtractFeatures(url: string, p: Parsed, net: Lookups): (r: Result<map<string, int>, ExtractError>)
    ensures r.Success? <==> PortValid(p)
    ensures r.Failure? ==> p.port.Some? && r.error == PortOutOfRange(p.port.value)
  {
    if PortValid(p) then Success(Features(url, p, net))
    else Failure(PortOutOfRange(p.port.value))
  }

  // ---------------------------------------------------------------------
  // Properties of the assembled mapping
  // ---------------------------------------------------------------------

  /** The names of the ten features the fetched page decides. */
  ghost const ContentKeys: set<string> := Elements(ContentNames)

  /** The ten content names sit at positions 12 to 21 of the extracted names. */
  lemma ContentNamesPlaced()
    ensures forall j :: 0 <= j < |ContentNames| ==> ExtractedNames[j + 12] == ContentNames[j]
  {
    var front := LexicalNames + ContentNames;
    assert ExtractedNames == front + ProbeNames + DefaultNames;
    forall j | 0 <= j < |ContentNames|
      ensures ExtractedNames[j + 12] == ContentNames[j]
    {
      assert front[j + 12] == ContentNames[j];
    }
  }

  /** Where a content key sits among the extracted names. */
  lemma ContentKeyPosition(k: string) returns (i: int)
    requires k in ContentKeys
    ensures 12 <= i < 22 && ExtractedNames[i] == k
  {
    ContentNamesPlaced();
    var j :| 0 <= j < |ContentNames| && ContentNames[j] == k;
    i := j + 12;
  }

  /** The name at a position from 12 to 21 is a content key. */
  lemma PositionContentKey(i: int)
    requires 12 <= i < 22
    ensures ExtractedNames[i] in ContentKeys
  {
    ContentNamesPlaced();
    assert ExtractedNames[(i - 12) + 12] == ContentNames[i - 12];
  }

  /** Every extraction yields the same 30 keys, whatever the lookups returned. */
  lemma FeatureKeys(url: string, p: Parsed, net: Lookups)
    requires PortValid(p)
    ensures var r := Features(url, p, net);
      && r.Keys == Elements(ExtractedNames)
      && |r| == 30
  {
    ExtractedNamesDistinct();
    DistinctElements(ExtractedNames);
  }

  /** Every feature is valued -1, 0 or 1, and the 24 measured ones -1 or 1. */
  lemma FeatureValues(url: string, p: Parsed, net: Lookups)
    requires PortValid(p)
    ensures var r := Features(url, p, net);
      && (forall k :: k in r ==> -1 <= r[k] <= 1)
      && (forall i :: 0 <= i < MeasuredCount ==>
            MapsTo(r, ExtractedNames[i], -1) || MapsTo(r, ExtractedNames[i], 1))
  {
  }

  /** The six unmeasured features always take their fixed defaults. */
  lemma StaticDefaultValues(url: string, p: Parsed, net: Lookups)
    requires PortValid(p)
    ensures var r := Features(url, p, net);
      && MapsTo(r, "web_traffic", 0) && MapsTo(r, "Page_Rank", 0) && MapsTo(r, "Links_pointing_to_page", 0)
      && MapsTo(r, "Favicon", 1) && MapsTo(r, "Google_Index", 1) && MapsTo(r, "Statistical_report", 1)
  {
    DefaultEntries(Measure(url, p, net));
  }

  /** Without a response, the ten content features all fall back to suspicious. */
  lemma UnreachablePageFallback(url: string, p: Parsed, net: Lookups)
    requires PortValid(p) && net.page.None?
    ensures var r := Features(url, p, net);
      && MapsTo(r, "Request_URL", -1) && MapsTo(r, "URL_of_Anchor", -1) && MapsTo(r, "Links_in_tags", -1)
      && MapsTo(r, "SFH", -1) && MapsTo(r, "Submitting_to_email", -1) && MapsTo(r, "Redirect", -1)
      && MapsTo(r, "on_mouseover", -1) && MapsTo(r, "RightClick", -1) && MapsTo(r, "popUpWidnow", -1)
      && MapsTo(r, "Iframe", -1)
  {
    FormEntries(Measure(url, p, net));
    ScriptEntries(Measure(url, p, net));
  }

  /** Two vectors that differ at most in their content features have
      mappings that agree on every other key. */
  lemma {:induction false} SameOutsideContent(v: FeatureVector, v': FeatureVector)
    requires v' == v.(content := v'.content)
    ensures AsMap(v).Keys == AsMap(v').Keys
    ensures forall k :: k in AsMap(v) && k !in ContentKeys ==> AgreeAt(AsMap(v), AsMap(v'), k)
  {
    forall k | k in AsMap(v) && k !in ContentKeys
      ensures AgreeAt(AsMap(v), AsMap(v'), k)
    {
      var i :| 0 <= i < |ExtractedNames| && ExtractedNames[i] == k;
      if 12 <= i < 22 {
        PositionContentKey(i);
      }
      OutsideContentValueAt(v, v', i);
    }
  }

  /** Outside positions 12 to 21, the values do not depend on the content
      scores. */
  lemma OutsideContentValueAt(v: FeatureVector, v': FeatureVector, i: int)
    requires v' == v.(content := v'.content)
    requires 0 <= i < |ExtractedNames| && !(12 <= i < 22)
    ensures Values(v)[i] == Values(v')[i]
  {
    var front := LexicalValues(v) + ContentValues(v.content);
    var front' := LexicalValues(v') + ContentValues(v'.content);
    var back := ProbeValues(v) + StaticDefaults;
    assert LexicalValues(v) == LexicalValues(v');
    assert back == ProbeValues(v') + StaticDefaults;
    assert Values(v) == front + back;
    assert Values(v') == front' + back;
    if i < 12 {
      assert front[i] == front'[i];
    }
  }

  /** The fetch outcome decides the ten content features and nothing else:
      every other feature is the same whatever page came back, or none. */
  lemma FetchDecidesOnlyContent(url: string, p: Parsed, net: Lookups, page: Option<Page>)
    requires PortValid(p)
    ensures var r := Features(url, p, net);
      var r' := Features(url, p, net.(page := page));
      && r.Keys == r'.Keys
      && forall k :: k in r && k !in ContentKeys ==> AgreeAt(r, r', k)
  {
    var v := Measure(url, p, net);
    var v' := Measure(url, p, net.(page := page));
    assert v' == v.(content := v'.content);
    SameOutsideContent(v, v');
  }

  /** One WHOIS lookup feeds two equal features: legitimate exactly when the
      creation date is known and lies more than 365 days back, suspicious when
      the lookup failed. */
  lemma DomainAgeRule(url: string, p: Parsed, net: Lookups)
    requires PortValid(p)
    ensures var r := Features(url, p, net);
      && "Domain_registeration_length" in r && "age_of_domain" in r
      && r["Domain_registeration_length"] == r["age_of_domain"]
      && (MapsTo(r, "age_of_domain", 1) <==> net.whoisAge.Some? && net.whoisAge.value > 365)
      && (net.whoisAge.None? ==> MapsTo(r, "age_of_domain", -1))
  {
    ServiceEntries(Measure(url, p, net));
  }

  /** DNSRecord is legitimate exactly when the A record resolved. */
  lemma DnsRecordRule(url: string, p: Parsed, net: Lookups)
    requires PortValid(p)
    ensures var r := Features(url, p, net);
      && (MapsTo(r, "DNSRecord", 1) <==> net.dnsOk)
      && (MapsTo(r, "DNSRecord", -1) <==> !net.dnsOk)
  {
    ServiceEntries(Measure(url, p, net));
  }

  /** The lookups are isolated from each other: a feature fed by one lookup
      keeps its value when only the other lookups' outcomes change. */
  lemma LookupsIsolated(url: string, p: Parsed, net: Lookups, net': Lookups)
    requires PortValid(p)
    ensures var r := Features(url, p, net);
      var r' := Features(url, p, net');
      && (net.dnsOk == net'.dnsOk ==> AgreeAt(r, r', "DNSRecord"))
      && (net.whoisAge == net'.whoisAge ==>
            AgreeAt(r, r', "Domain_registeration_length") && AgreeAt(r, r', "age_of_domain"))
      && (net.page == net'.page ==> forall k :: k in ContentKeys ==> AgreeAt(r, r', k))
  {
    var v := Measure(url, p, net);
    var v' := Measure(url, p, net');
    ServiceEntries(v);
    ServiceEntries(v');
    if net.page == net'.page {
      SameContent(v, v');
    }
  }

  /** Two vectors with the same content scores agree on every content key. */
  lemma SameContent(v: FeatureVector, v': FeatureVector)
    requires v.content == v'.content
    ensures forall k :: k in ContentKeys ==> AgreeAt(AsMap(v), AsMap(v'), k)
  {
    forall k | k in ContentKeys
      ensures AgreeAt(AsMap(v), AsMap(v'), k)
    {
      var i := ContentKeyPosition(k);
      ContentValueAt(v, i);
      ContentValueAt(v', i);
    }
  }

  /** Positions 12 to 21 of the values hold the content scores. */
  lemma ContentValueAt(v: FeatureVector, i: int)
    requires 12 <= i < 22
    ensures Values(v)[i] == ContentValues(v.content)[i - 12]
  {
    var front := LexicalValues(v) + ContentValues(v.content);
    assert Values(v) == front + ProbeValues(v) + StaticDefaults;
    assert front[i] == ContentValues(v.content)[i - 12];
  }

  /** The zero-denominator guard: a fetched page with no elements of a kind
      scores that ratio feature legitimate. */
  lemma EmptyListsScoreLegitimate(url: string, p: Parsed, net: Lookups)
    requires PortValid(p) && net.page.Some?
    ensures var r := Features(url, p, net);
      && (net.page.value.media == [] ==> MapsTo(r, "Request_URL", 1))
      && (net.page.value.anchorHrefs == [] ==> MapsTo(r, "URL_of_Anchor", 1))
      && (net.page.value.tagSrcs == [] ==> MapsTo(r, "Links_in_tags", 1))
  {
    var v := Measure(url, p, net);
    assert v.content == Analyze(Domain(p), net.page.value);
    FormEntries(v);
  }

  /** The three ratio features compare the exact ratio of offending elements
      to `max(n, 1)` against 0.3, 0.5 and 0.5 with a strict `>`. */
  lemma RatioRules(url: string, p: Parsed, net: Lookups)
    requires PortValid(p) && net.page.Some?
    ensures var r := Features(url, p, net);
      var pg := net.page.value;
      var d := Domain(p);
      && (MapsTo(r, "Request_URL", -1) <==>
            (ForeignMedia(d, pg.media) as real) / (AtLeastOne(|pg.media|) as real) > 0.3)
      && (MapsTo(r, "URL_of_Anchor", -1) <==>
            (UnsafeAnchors(d, pg.anchorHrefs) as real) / (AtLeastOne(|pg.anchorHrefs|) as real) > 0.5)
      && (MapsTo(r, "Links_in_tags", -1) <==>
            (ForeignTags(d, pg.tagSrcs) as real) / (AtLeastOne(|pg.tagSrcs|) as real) > 0.5)
  {
    var v := Measure(url, p, net);
    assert v.content == Analyze(Domain(p), net.page.value);
    FormEntries(v);
  }

  /** A ratio exactly at its threshold is not above it, so it scores legitimate. */
  lemma RatioAtThresholdIsLegitimate(url: string, p: Parsed, net: Lookups)
    requires PortValid(p) && net.page.Some?
    ensures var r := Features(url, p, net);
      var pg := net.page.value;
      var d := Domain(p);
      && (10 * ForeignMedia(d, pg.media) == 3 * |pg.media| ==> MapsTo(r, "Request_URL", 1))
      && (2 * UnsafeAnchors(d, pg.anchorHrefs) == |pg.anchorHrefs| ==> MapsTo(r, "URL_of_Anchor", 1))
      && (2 * ForeignTags(d, pg.tagSrcs) == |pg.tagSrcs| ==> MapsTo(r, "Links_in_tags", 1))
  {
    var v := Measure(url, p, net);
    assert v.content == Analyze(Domain(p), net.page.value);
    FormEntries(v);
  }

  /** With no hostname every "host not in X" test is false, since the empty
      string occurs in every string: the host-based features score
      legitimate, and on a fetched page so do the features that look for
      foreign sources. */
  lemma EmptyHostname(url: string, p: Parsed, net: Lookups)
    requires PortValid(p) && Domain(p) == ""
    ensures var r := Features(url, p, net);
      && MapsTo(r, "having_IP_Address", 1) && MapsTo(r, "Prefix_Suffix", 1)
      && MapsTo(r, "having_Sub_Domain", 1) && MapsTo(r, "HTTPS_token", 1)
      && MapsTo(r, "Abnormal_URL", 1)
      && (net.page.Some? ==>
            MapsTo(r, "Request_URL", 1) && MapsTo(r, "URL_of_Anchor", 1)
            && MapsTo(r, "Links_in_tags", 1) && MapsTo(r, "SFH", 1))
  {
    var v := Measure(url, p, net);
    DomainEntries(v);
    assert LeadingDigits("") == 0;
    EmptyOccursEverywhere(url);
    if net.page.Some? {
      NoHostContent(net.page.value);
      FormEntries(v);
    }
  }

  /** The features of the URL text. The search for "//" starts at index 8,
      past the scheme's own slashes, so a URL of at most nine characters
      never scores a redirect. */
  lemma UrlRules(url: string, p: Parsed, net: Lookups)
    requires PortValid(p)
    ensures var r := Features(url, p, net);
      && (MapsTo(r, "URL_Length", 1) <==> |url| < 54)
      && (MapsTo(r, "having_At_Symbol", -1) <==> '@' in url)
      && (MapsTo(r, "double_slash_redirecting", -1) <==> exists i :: 8 <= i && OccursAt(url, "//", i))
      && (|url| <= 9 ==> MapsTo(r, "double_slash_redirecting", 1))
      && (MapsTo(r, "Shortining_Service", -1) <==>
            exists f :: f in ShortenerFragments && Occurs(Lower(url), f))
      && (MapsTo(r, "SSLfinal_State", 1) <==> p.scheme == "https")
  {
    UrlEntries(Measure(url, p, net));
    ServiceEntries(Measure(url, p, net));
  }

  /** The features of the host and port: a dotted quad of digit runs, a '-',
      more than one '.', the token "https", a nonzero port, and a host that
      does not occur in the URL each score suspicious. */
  lemma HostRules(url: string, p: Parsed, net: Lookups)
    requires PortValid(p)
    ensures var r := Features(url, p, net);
      var d := Domain(p);
      && (MapsTo(r, "having_IP_Address", -1) <==> DigitRunsSpec(d, 4))
      && (MapsTo(r, "Prefix_Suffix", -1) <==> '-' in d)
      && (MapsTo(r, "having_Sub_Domain", -1) <==> multiset(d)['.'] > 1)
      && (MapsTo(r, "HTTPS_token", -1) <==> Occurs(Lower(d), "https"))
      && (MapsTo(r, "port", -1) <==> p.port.Some? && p.port.value != 0)
      && (MapsTo(r, "Abnormal_URL", -1) <==> !Occurs(url, d))
  {
    var v := Measure(url, p, net);
    DomainEntries(v);
    ServiceEntries(v);
  }

  /** The page features other than the ratios, read off a fetched page. */
  lemma PageRules(url: string, p: Parsed, net: Lookups)
    requires PortValid(p) && net.page.Some?
    ensures var r := Features(url, p, net);
      var pg := net.page.value;
      var text := Lower(pg.text);
      && (MapsTo(r, "SFH", -1) <==>
            exists a :: a in pg.formActions && a.Some? && a.value != "" && !Occurs(a.value, Domain(p)))
      && (MapsTo(r, "Submitting_to_email", -1) <==>
            exists a :: a in pg.formActions && StartsWith(a.GetOr(""), "mailto:"))
      && (MapsTo(r, "Redirect", -1) <==> pg.historyLen > 0)
      && (MapsTo(r, "on_mouseover", -1) <==> Occurs(text, "onmouseover"))
      && (MapsTo(r, "RightClick", -1) <==> Occurs(text, "event.button==2"))
      && (MapsTo(r, "popUpWidnow", -1) <==> Occurs(text, "window.open"))
      && (MapsTo(r, "Iframe", -1) <==> exists m :: m in pg.media && m.tag == Iframe)
  {
    FormAndFrameRules(Domain(p), net.page.value);
    ScriptRules(Domain(p), net.page.value);
    FormEntries(Measure(url, p, net));
    ScriptEntries(Measure(url, p, net));
  }
}
