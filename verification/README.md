# Phishing URL feature extractor — a Dafny model

This project models the feature extractor of a phishing-URL classifier:
`extract_features(url)` turns a URL into a flat mapping from 30 fixed feature
names to scores of -1 (suspicious), 0 or 1 (legitimate). The model also
covers the other half of the contract, the fixed training-column list
`FEATURE_COLUMNS` and the column selection `x[FEATURE_COLUMNS]` performed by
`NetworkModel.predict`.

The extractor talks to the outside world in three places: a WHOIS lookup, a
DNS A-record lookup and an HTTP fetch of the page. Each is best-effort and
failure-isolated. In the model, their outcomes are inputs, collected in
`Extraction.Lookups`:
- the domain's age in days, or `None` when WHOIS failed;
- whether the A record resolved;
- the fetched page, or `None` when no response came back.

With those inputs the extractor is a pure function. `urlparse` and the HTML
parser are inputs too: `Lexical.Parsed` carries the scheme, the hostname and
the port. `Content.Page` carries the body text, the redirect-history length,
the media elements, the anchor `href`s, the meta/script/link sources and the
form actions.

Modules:
- `Wrappers` holds the `Option` and `Result` types.
- `Scores` holds the -1/0/1 scores and `Flag`.
- `Text` models the Python string operations used: `in`, `startswith`, `find`, `count` and `lower`.
- `Collections` holds distinct sequences and the dictionary built from names and values.
- `Lexical` holds the URL and host features.
- `Content` holds the page features.
- `Extraction` assembles the vector, the mapping, the fallbacks and the constant defaults.
- `Estimator` holds the column list, the selection and prediction.
- `Pipeline` states that the extractor's keys are exactly the training columns.

Ratios: the source compares `len(bad) / max(n, 1)` with 0.3 or 0.5 using a
float division. The model decides this by integer cross-multiplication.
`Content.ExceedsIsRatioComparison` proves that this decision agrees with the
exact rational comparison.

Reading an out-of-range port is the one exception this model represents.
`ExtractFeatures` returns `Failure(PortOutOfRange(p))` for a written port
above 65535. `Features` is the mapping for every other URL. The other
exceptions that can escape `extract_features` are listed under "## Left out".

Three behaviours of the code are easy to misread, and the model follows
the code in each:
- **Port 0.** The code tests `parsed.port` for truthiness, so an explicit port 0 scores legitimate, like no port at all.
- **Ratio denominators.** The media and tag ratios divide by the number of all such elements, including those without a `src` or `href`, not by the number that have one.
- **Exceptions.** `parsed.port` is read outside any `try`, so an out-of-range port raises out of `extract_features` instead of falling back to a score.

## Model

| member | source | states |
|---|---|---|
| Text.Find | feature_extraction.py:72-74 | `url.find("//", 8)` is -1 exactly when no occurrence starts at or after 8; otherwise it is the least such occurrence |
| Text.CountChar | feature_extraction.py:84-86 | `domain.count(".")` equals the number of dots in the host (its multiplicity in the multiset of characters) |
| Text.ContainsIsOccurs | feature_extraction.py:240-242 | the scan used for Python's substring `in` succeeds exactly when the pattern occurs at some index |
| Text.EmptyOccursEverywhere | feature_extraction.py:41 | the empty host (`hostname or ""`) occurs in every string, so every "host not in X" test is false for it |
| Text.Lower | feature_extraction.py:60 | lower-casing keeps the length, leaves no letter A–Z in the result, moves each letter A–Z up by 32 code points to its lower case, and leaves every other character unchanged |
| Text.LowerIdempotent | feature_extraction.py:60 | lower-casing an already lower-cased string changes nothing |
| Lexical.DigitRunsSound | feature_extraction.py:46-48 | every host accepted by the dotted-quad scan matches `\d+\.\d+\.\d+\.\d+` in full |
| Lexical.DigitRunsComplete | feature_extraction.py:46-48 | every host matching `\d+\.\d+\.\d+\.\d+` in full is accepted by the scan |
| Lexical.DigitRunsIsSpec | feature_extraction.py:46-48 | the scan and the regular-expression language coincide |
| Lexical.HavingIpAddress | feature_extraction.py:46-48 | having_IP_Address is -1 exactly when the host is four non-empty digit runs joined by dots |
| Lexical.ShorteningService | feature_extraction.py:58-62 | Shortining_Service is -1 exactly when one of bit.ly, tinyurl, goo.gl, ow.ly, t.co occurs in the lower-cased URL |
| Lexical.ShortenerFragmentInsideHost | feature_extraction.py:58-62 | the fragment search also fires inside an ordinary host: https://microsoft.com scores -1 |
| Lexical.DoubleSlashRedirecting | feature_extraction.py:72-74 | double_slash_redirecting is -1 exactly when "//" occurs at index 8 or later |
| Lexical.HavingSubDomain | feature_extraction.py:84-86 | having_Sub_Domain is -1 exactly when the host contains more than one dot |
| Lexical.HttpsToken | feature_extraction.py:128 | HTTPS_token is -1 exactly when "https" occurs in the lower-cased host |
| Lexical.AbnormalUrl | feature_extraction.py:240-242 | Abnormal_URL is -1 exactly when the host does not occur in the URL |
| Content.ExceedsIsRatioComparison | feature_extraction.py:161 | the integer cross-multiplication test agrees with the exact comparison `k / max(n,1) > num/den` |
| Content.CountWhere | feature_extraction.py:156-159 | the length of a filtering comprehension is at most the list's length; it is 0 iff no element passes and full iff every element passes |
| Content.CountWhereConcat | feature_extraction.py:156-161 | the length of a filtering comprehension over a concatenation is the sum of the lengths over the parts; with the one-element cases above, `len(external)` is exactly the number of elements that pass the filter |
| Content.NoHostSourceLocal | feature_extraction.py:158 | with an empty host, no element source counts as external |
| Content.NoHostAnchorSafe | feature_extraction.py:170-171 | with an empty host, no anchor target counts as unsafe |
| Content.RequestUrl | feature_extraction.py:155-162 | Request_URL is -1 exactly when the external media sources divided by max(media count, 1) exceed 0.3 |
| Content.UrlOfAnchor | feature_extraction.py:167-174 | URL_of_Anchor is -1 exactly when the unsafe anchors divided by max(anchor count, 1) exceed 0.5 |
| Content.LinksInTags | feature_extraction.py:179-186 | Links_in_tags is -1 exactly when the external tag sources divided by max(tag count, 1) exceed 0.5 |
| Content.NoHostContent | feature_extraction.py:155-199 | with an empty host, the three ratio features and SFH are 1 on any fetched page |
| Content.FormAndFrameRules | feature_extraction.py:191-235 | SFH is -1 iff some form has a present, non-empty action without the host; Submitting_to_email is -1 iff some action starts with "mailto:"; Redirect is -1 iff the history is non-empty; Iframe is -1 iff an iframe is present |
| Content.ScriptRules | feature_extraction.py:223-232 | on_mouseover, RightClick and popUpWidnow are -1 exactly when their pattern occurs in the lower-cased body |
| Extraction.Values | feature_extraction.py:38-262 | there is one value per extracted name, every value is in -1..1, and the 24 measured ones are -1 or 1 |
| Extraction.AsMap | feature_extraction.py:38-262 | the mapping's keys are exactly the 30 names, and each name maps to its own value |
| Extraction.ExtractFeatures | feature_extraction.py:123 | extraction succeeds exactly when the written port is in 0..65535; otherwise it fails, naming that port |
| Extraction.FeatureKeys | feature_extraction.py:38-262 | every extraction, whatever the lookups returned, has exactly the same 30 keys |
| Extraction.FeatureValues | feature_extraction.py:38-262 | every value is -1, 0 or 1, and the 24 measured features are -1 or 1 |
| Extraction.StaticDefaultValues | feature_extraction.py:256-260 | web_traffic, Page_Rank and Links_pointing_to_page are always 0; Favicon, Google_Index and Statistical_report always 1 |
| Extraction.UnreachablePageFallback | feature_extraction.py:133-148 | without a response, the ten content features are all -1 |
| Extraction.FetchDecidesOnlyContent | feature_extraction.py:133-148 | the fetch outcome changes no key outside the ten content features |
| Extraction.DomainAgeRule | feature_extraction.py:98-113 | the two age features are equal; they are 1 iff the age is known and above 365 days, and -1 when the lookup failed |
| Extraction.DnsRecordRule | feature_extraction.py:247-251 | DNSRecord is 1 iff the A record resolved, and -1 otherwise |
| Extraction.LookupsIsolated | feature_extraction.py:98-251 | DNSRecord depends only on DNS, the age features only on WHOIS, and the content features only on the fetch |
| Extraction.EmptyListsScoreLegitimate | feature_extraction.py:155-186 | a fetched page with no media, no anchors or no tags scores that ratio feature 1 |
| Extraction.RatioRules | feature_extraction.py:155-186 | in the mapping, each ratio feature is -1 exactly when its exact ratio exceeds 0.3, 0.5 or 0.5 respectively |
| Extraction.RatioAtThresholdIsLegitimate | feature_extraction.py:155-186 | a ratio exactly equal to its threshold scores 1 (strict comparison) |
| Extraction.EmptyHostname | feature_extraction.py:41-242 | with no hostname, having_IP_Address, Prefix_Suffix, having_Sub_Domain, HTTPS_token and Abnormal_URL are 1, and so are the three ratio features and SFH on a fetched page |
| Extraction.UrlRules | feature_extraction.py:53-93 | URL_Length is 1 iff the URL is shorter than 54; '@', a shortener fragment and "//" at index 8 or later each score -1 exactly when present; a URL of at most 9 characters has no redirect; SSLfinal_State is 1 iff the scheme is "https" |
| Extraction.HostRules | feature_extraction.py:46-242 | in the mapping, each host-based feature and port is -1 exactly when its condition holds; port is -1 iff a nonzero port is written |
| Extraction.PageRules | feature_extraction.py:191-235 | in the mapping, SFH, Submitting_to_email, Redirect, the three script features and Iframe are -1 exactly under their conditions |
| Estimator.FeatureColumnsShape | networksecurity/utils/ml_utils/model/estimator.py:8-16 | there are 30 training columns, pairwise distinct |
| Estimator.Missing | networksecurity/utils/ml_utils/model/estimator.py:29 | the missing-column list holds exactly the requested columns absent from the row |
| Estimator.Row | networksecurity/utils/ml_utils/model/estimator.py:29 | the selected row has one value per column, the i-th being the row's value under the i-th column |
| Estimator.Select | networksecurity/utils/ml_utils/model/estimator.py:29 | selection succeeds iff every column is present, giving the values in column order; otherwise it fails, naming exactly the absent columns |
| Estimator.SelectIgnoresExtraKeys | networksecurity/utils/ml_utils/model/estimator.py:29 | keys outside the requested columns do not affect the selection |
| Estimator.Predict | networksecurity/utils/ml_utils/model/estimator.py:27-36 | a missing column fails with a wrapped missing-columns error; a success is the classifier's answer on the selected row; a classifier failure comes back wrapped |
| Estimator.PredictWithAllColumns | networksecurity/utils/ml_utils/model/estimator.py:27-36 | with every column present, prediction fails only through the classifier, and succeeds iff the classifier does |
| Pipeline.SameNames | networksecurity/utils/ml_utils/model/estimator.py:8-16 | the extracted names and the training columns form the same set |
| Pipeline.KeysAreColumns | networksecurity/utils/ml_utils/model/estimator.py:8-16 | the extractor's key set equals the training-column set |
| Pipeline.SelectionTotal | networksecurity/utils/ml_utils/model/estimator.py:29 | selection on extractor output always succeeds, giving 30 values in -1..1, each the extracted value under its column |
| Pipeline.DefaultsInSelectedRow | networksecurity/utils/ml_utils/model/estimator.py:8-16 | in the selected row, positions 9, 27 and 29 hold 1, and positions 25, 26 and 28 hold 0 |
| Pipeline.PredictOnExtracted | networksecurity/utils/ml_utils/model/estimator.py:27-36 | on extractor output, prediction never fails for a missing column, and succeeds iff the classifier does |

## Left out

- The HTTP fetch, WHOIS, DNS resolution and the clock are not modelled. They are network and clock I/O, so their outcomes are inputs in `Lookups`; the WHOIS input is the age in days, already computed from the first creation date.
- `urlparse` raising is not modelled. On a malformed bracketed IPv6 host such as `http://[::1/` it raises `ValueError` at feature_extraction.py:40, and that exception leaves `extract_features` uncaught. The model takes an already parsed `Parsed` as input.
- The HTML parser rejecting the fetched markup is not modelled. If `BeautifulSoup(r.text, "html.parser")` raised at feature_extraction.py:150, that exception would also leave `extract_features` uncaught. The model takes the page as an already parsed `Page`.
- `urlparse` and BeautifulSoup are foreign libraries. Their results are inputs: `Parsed` carries scheme, hostname and port; `Page` carries the extracted element lists.
- A port written as non-numeric text (`http://h:abc/`) is not modelled. `urlparse` accepts it, but reading `parsed.port` at feature_extraction.py:123 then raises `ValueError`, on the same line as the modelled out-of-range case. `Parsed.port` holds a number or nothing, so it cannot represent such a port, and `Extraction.ExtractFeatures` does not cover this failure.
- `\d` and `str.lower` are modelled on ASCII only. Unicode digits and case mappings beyond A–Z are not covered.
- Iframe: the separate `soup.find("iframe")` is read off the media list, which the same parser fills with every iframe element.
- The float ratio division is replaced by exact rational comparison. Rounding of doubles is not modelled.
- Dictionary insertion order is not modelled. The mapping is a Dafny `map`, and the column selection is what fixes the order.
- Estimator.Predict: models one row and one scalar prediction. `NetworkModel.predict` takes a DataFrame of any number of rows and returns the array `y_hat`; its caller passes a single row and reads element `[0]`. Batches of several rows are not modelled.
- The preprocessor and classifier are one opaque function parameter of `Predict`. The text of the pandas `KeyError`, and logging, are not modelled.
- The translation of a prediction into "phishing"/"legitimate" in the web endpoint is not part of this model. Neither is the browser extension.
