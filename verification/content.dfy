/** The features derived from the fetched page: external-resource ratios,
    form handlers, redirect history, scripted behaviours and iframes. When the
    fetch produced no response, all ten take the suspicious fallback. */
module Content {
  import opened Wrappers
  import opened Scores
  import opened Text

  /** The media tags whose sources count towards Request_URL. */
  datatype MediaTag = Img | Audio | Embed | Iframe

  /** A media element and its `src` attribute, absent when the tag has none. */
  datatype Media = Media(tag: MediaTag, src: Option<string>)

  /** What the extractor reads from a fetched response and its parsed HTML:
      the body text, the length of the redirect history, every img/audio/
      embed/iframe element, the `href` of every anchor that has one, the
      `src` of every meta/script/link tag, and the `action` of every form. */
  datatype Page = Page(
    text: string,
    historyLen: nat,
    media: seq<Media>,
    anchorHrefs: seq<string>,
    tagSrcs: seq<Option<string>>,
    formActions: seq<Option<string>>
  )

  /** The ten content features, in the order the extractor sets them. */
  datatype ContentScores = ContentScores(
    requestUrl: Binary,
    urlOfAnchor: Binary,
    linksInTags: Binary,
    sfh: Binary,
    submittingToEmail: Binary,
    redirect: Binary,
    onMouseover: Binary,
    rightClick: Binary,
    popUpWindow: Binary,
    iframe: Binary
  )

  /** The fallback for an unreachable page: every content feature suspicious. */
  const Unreachable: ContentScores :=
    ContentScores(Suspicious, Suspicious, Suspicious, Suspicious, Suspicious,
                  Suspicious, Suspicious, Suspicious, Suspicious, Suspicious)

  // ---------------------------------------------------------------------
  // Ratio tests
  // ---------------------------------------------------------------------

  /** A ratio threshold `num / den`, compared against with a strict `>`. */
  datatype Threshold = Threshold(num: nat, den: nat)

  const MediaThreshold: Threshold := Threshold(3, 10)   // 0.3
  const AnchorThreshold: Threshold := Threshold(1, 2)   // 0.5
  const TagThreshold: Threshold := Threshold(1, 2)      // 0.5

  /** `max(n, 1)`: the denominator guard against an empty element list. */
  function AtLeastOne(n: nat): (m: nat)
    ensures m >= 1 && m >= n
    ensures n >= 1 ==> m == n
    ensures m == n || m == 1
  {
    if n < 1 then 1 else n
  }

  /** `k / max(n, 1) > t`, decided by cross-multiplication in integers. */
  predicate Exceeds(k: nat, n: nat, t: Threshold)
    requires t.den > 0
  {
    k * t.den > t.num * AtLeastOne(n)
  }

  /** Scaling both sides by a positive factor keeps a strict order. */
  lemma ScaleKeepsOrder(x: real, y: real, z: real)
    requires z > 0.0
    ensures x > y <==> x * z > y * z
  {
    assert x * z - y * z == (x - y) * z;
  }

  /** Two fractions with positive denominators compare as their cross products. */
  lemma CrossMultiply(a: real, b: real, c: real, d: real)
    requires b > 0.0 && d > 0.0
    ensures a / b > c / d <==> a * d > c * b
  {
    var x := a / b;
    var y := c / d;
    assert a == x * b;
    assert c == y * d;
    assert a * d == x * (b * d);
    assert c * b == y * (b * d);
    ScaleKeepsOrder(x, y, b * d);
  }

  /** The integer test agrees with the exact ratio comparison the source
      writes with a division. */
  lemma ExceedsIsRatioComparison(k: nat, n: nat, t: Threshold)
    requires t.den > 0
    ensures Exceeds(k, n, t) <==> (k as real) / (AtLeastOne(n) as real) > (t.num as real) / (t.den as real)
  {
    var m := AtLeastOne(n);
    CrossMultiply(k as real, m as real, t.num as real, t.den as real);
    assert (k * t.den) as real == (k as real) * (t.den as real);
    assert (t.num * m) as real == (t.num as real) * (m as real);
  }

  // ---------------------------------------------------------------------
  // Element classification
  // ---------------------------------------------------------------------

  /** A source or action that is present, non-empty (Python truthiness) and
      does not contain the host: the test used for media, tags and forms. */
  predicate Foreign(domain: string, src: Option<string>) {
    src.Some? && src.value != "" && !Contains(src.value, domain)
  }

  /** An anchor target that neither contains the host nor is site-relative. */
  predicate UnsafeAnchor(domain: string, href: string) {
    !Contains(href, domain) && !StartsWith(href, "/")
  }

  /** The number of elements of `xs` satisfying `p`: the length of the list
      comprehension `[x for x in xs if p(x)]`. */
  function CountWhere<T>(xs: seq<T>, p: T -> bool): (n: nat)
    ensures n <= |xs|
    ensures n == 0 <==> forall i :: 0 <= i < |xs| ==> !p(xs[i])
    ensures n == |xs| <==> forall i :: 0 <= i < |xs| ==> p(xs[i])
  {
    if xs == [] then 0
    else
      var rest := CountWhere(xs[1..], p);
      assert forall i :: 1 <= i < |xs| ==> xs[1..][i - 1] == xs[i];
      (if p(xs[0]) then 1 else 0) + rest
  }

  /** Counting distributes over concatenation. With the one-element cases
      the contract fixes (1 when the element passes, 0 when it does not),
      this pins the count of every list: one per passing element. */
  lemma {:induction false} CountWhereConcat<T>(a: seq<T>, b: seq<T>, p: T -> bool)
    ensures CountWhere(a + b, p) == CountWhere(a, p) + CountWhere(b, p)
    decreases |a|
  {
    if a != [] {
      assert (a + b)[1..] == a[1..] + b;
      assert (a + b)[0] == a[0];
      CountWhereConcat(a[1..], b, p);
    } else {
      assert a + b == b;
    }
  }

  function ForeignMedia(domain: string, media: seq<Media>): nat {
    CountWhere(media, (m: Media) => Foreign(domain, m.src))
  }

  function UnsafeAnchors(domain: string, hrefs: seq<string>): nat {
    CountWhere(hrefs, (h: string) => UnsafeAnchor(domain, h))
  }

  function ForeignTags(domain: string, srcs: seq<Option<string>>): nat {
    CountWhere(srcs, (s: Option<string>) => Foreign(domain, s))
  }

  /** The empty host occurs in every source, so with no host no source is
      foreign. */
  lemma NoHostSourceLocal(src: Option<string>)
    ensures !Foreign("", src)
  {
    if src.Some? {
      EmptyOccursEverywhere(src.value);
    }
  }

  /** The empty host occurs in every anchor target, so with no host no
      anchor is unsafe. */
  lemma NoHostAnchorSafe(href: string)
    ensures !UnsafeAnchor("", href)
  {
    EmptyOccursEverywhere(href);
  }

  // ---------------------------------------------------------------------
  // The content features of a fetched page
  // ---------------------------------------------------------------------

  /** Request_URL: suspicious when more than 30% of the media elements have
      a foreign source. */
  function RequestUrl(domain: string, media: seq<Media>): (r: Binary)
    ensures r == Suspicious <==>
      (ForeignMedia(domain, media) as real) / (AtLeastOne(|media|) as real) > 0.3
  {
    ExceedsIsRatioComparison(ForeignMedia(domain, media), |media|, MediaThreshold);
    Flag(Exceeds(ForeignMedia(domain, media), |media|, MediaThreshold))
  }

  /** URL_of_Anchor: suspicious when more than half of the anchors are unsafe. */
  function UrlOfAnchor(domain: string, hrefs: seq<string>): (r: Binary)
    ensures r == Suspicious <==>
      (UnsafeAnchors(domain, hrefs) as real) / (AtLeastOne(|hrefs|) as real) > 0.5
  {
    ExceedsIsRatioComparison(UnsafeAnchors(domain, hrefs), |hrefs|, AnchorThreshold);
    Flag(Exceeds(UnsafeAnchors(domain, hrefs), |hrefs|, AnchorThreshold))
  }

  /** Links_in_tags: suspicious when more than half of the meta/script/link
      tags have a foreign source; tags without a source count in the total. */
  function LinksInTags(domain: string, srcs: seq<Option<string>>): (r: Binary)
    ensures r == Suspicious <==>
      (ForeignTags(domain, srcs) as real) / (AtLeastOne(|srcs|) as real) > 0.5
  {
    ExceedsIsRatioComparison(ForeignTags(domain, srcs), |srcs|, TagThreshold);
    Flag(Exceeds(ForeignTags(domain, srcs), |srcs|, TagThreshold))
  }

  /** SFH: suspicious when some form posts to a foreign action. */
  function Sfh(domain: string, actions: seq<Option<string>>): Binary {
    Flag(exists i :: 0 <= i < |actions| && Foreign(domain, actions[i]))
  }

  /** Submitting_to_email: suspicious when some form's action starts with
      "mailto:" (case-sensitive; a missing action reads as ""). */
  function SubmittingToEmail(actions: seq<Option<string>>): Binary {
    Flag(exists i :: 0 <= i < |actions| && StartsWith(actions[i].GetOr(""), "mailto:"))
  }

  const MouseOverPattern: string := "onmouseover"
  const RightClickPattern: string := "event.button==2"
  const PopUpPattern: string := "window.open"

  /** The content features of a page that was fetched. */
  function Analyze(domain: string, page: Page): ContentScores {
    var text := Lower(page.text);
    ContentScores(
      RequestUrl(domain, page.media),
      UrlOfAnchor(domain, page.anchorHrefs),
      LinksInTags(domain, page.tagSrcs),
      Sfh(domain, page.formActions),
      SubmittingToEmail(page.formActions),
      Flag(page.historyLen > 0),
      Flag(Contains(text, MouseOverPattern)),
      Flag(Contains(text, RightClickPattern)),
      Flag(Contains(text, PopUpPattern)),
      Flag(exists i :: 0 <= i < |page.media| && page.media[i].tag == Iframe)
    )
  }

  /** The content features, with the fallback when no response came back. */
  function ContentFeatures(domain: string, page: Option<Page>): ContentScores {
    match page
    case None => Unreachable
    case Some(pg) => Analyze(domain, pg)
  }

  /** With no host, no source is foreign and no anchor unsafe, so the three
      ratio features and SFH score legitimate on any fetched page. */
  lemma NoHostContent(page: Page)
    ensures var c := Analyze("", page);
      && c.requestUrl == Legitimate && c.urlOfAnchor == Legitimate
      && c.linksInTags == Legitimate && c.sfh == Legitimate
  {
    forall m | m in page.media
      ensures !Foreign("", m.src)
    {
      NoHostSourceLocal(m.src);
    }
    forall h | h in page.anchorHrefs
      ensures !UnsafeAnchor("", h)
    {
      NoHostAnchorSafe(h);
    }
    forall a | a in page.tagSrcs + page.formActions
      ensures !Foreign("", a)
    {
      NoHostSourceLocal(a);
    }
  }

  /** The form, redirect and iframe features of a fetched page: SFH flags a
      present, non-empty action the host does not occur in; the e-mail test
      reads a missing action as ""; any redirect in the history counts. */
  lemma FormAndFrameRules(domain: string, page: Page)
    ensures var c := Analyze(domain, page);
      && (c.sfh == Suspicious <==>
            exists a :: a in page.formActions && a.Some? && a.value != "" && !Occurs(a.value, domain))
      && (c.submittingToEmail == Suspicious <==>
            exists a :: a in page.formActions && StartsWith(a.GetOr(""), "mailto:"))
      && (c.redirect == Suspicious <==> page.historyLen > 0)
      && (c.iframe == Suspicious <==> exists m :: m in page.media && m.tag == Iframe)
  {
    forall a | a in page.formActions && a.Some? {
      ContainsIsOccurs(a.value, domain);
    }
  }

  /** The three script features search the lower-cased body text. */
  lemma ScriptRules(domain: string, page: Page)
    ensures var c := Analyze(domain, page);
      var text := Lower(page.text);
      && (c.onMouseover == Suspicious <==> Occurs(text, "onmouseover"))
      && (c.rightClick == Suspicious <==> Occurs(text, "event.button==2"))
      && (c.popUpWindow == Suspicious <==> Occurs(text, "window.open"))
  {
    ContainsIsOccurs(Lower(page.text), MouseOverPattern);
    ContainsIsOccurs(Lower(page.text), RightClickPattern);
    ContainsIsOccurs(Lower(page.text), PopUpPattern);
  }
}
