/** The news proxy route, `GET /api/news`: it reads the filters from the query
    string, asks the NewsAPI service for matching articles, and answers with
    the service's payload, or with ten generated placeholder articles when the
    service fails.

    What the route cannot compute itself comes in as parameters: the current
    time `now` in milliseconds since the epoch, the `NEWS_API_KEY` environment
    variable, Date's `toISOString` as `iso`, and the upstream `fetch` as a
    function from the requested URL to its outcome. */
module NewsRoute {
  import opened Text
  import opened UriEncoding

  // ---------------------------------------------------------------------------
  // Data
  // ---------------------------------------------------------------------------

  /** The filters of one request, after defaulting. */
  datatype Query = Query(keywords: Str, category: Str, sortBy: Str)

  datatype Source = Source(id: Option<Str>, name: Str)

  /** A news item, as the route's clients read it; `None` is JSON's null. */
  datatype Article = Article(
    source: Source,
    author: Option<Str>,
    title: Str,
    description: Str,
    url: Str,
    urlToImage: Option<Str>,
    publishedAt: Str,
    content: Str)

  /** The JSON body `{status, totalResults, articles}`. */
  datatype NewsPayload = NewsPayload(status: Str, totalResults: int, articles: seq<Article>)

  /** What the upstream `fetch` comes to: it threw (network failure), or the
      service answered with an HTTP status and a body that parses as JSON
      (`Some`) or does not (`None`, where `response.json()` rejects). */
  datatype FetchOutcome<P> = Threw | Responded(status: int, body: Option<P>)

  /** What the route answers: the upstream JSON passed through untouched, or
      the generated placeholder payload. */
  datatype Reply<P> = Passthrough(data: P) | Fallback(payload: NewsPayload)

  const DefaultKeywords: Str := "technology"
  const DefaultSortBy: Str := "publishedAt"
  const DemoApiKey: Str := "demo"
  const TopHeadlinesEndpoint: Str := "https://newsapi.org/v2/top-headlines"
  const EverythingEndpoint: Str := "https://newsapi.org/v2/everything"

  /** How many placeholder articles the fallback holds. */
  const MockCount: nat := 10
  /** One hour in milliseconds: the step between placeholder timestamps. */
  const HourMs: nat := 3600000

  // ---------------------------------------------------------------------------
  // Parameter defaulting
  // ---------------------------------------------------------------------------

  /** JavaScript's `value || fallback` for a string that may be missing:
      null and the empty string both give the fallback. */
  function OrElse(v: Option<Str>, fallback: Str): (r: Str)
    ensures v.Some? && v.value != [] ==> r == v.value
    ensures v.None? || v.value == [] ==> r == fallback
  {
    match v
    case Some(s) => if s != [] then s else fallback
    case None => fallback
  }

  /** A query parameter that is present with a non-empty value. */
  predicate Given(params: seq<Param>, key: Str) {
    Lookup(params, key).Some? && Lookup(params, key).value != []
  }

  /** The filters of a request, each defaulted when missing or empty. */
  function ReadQuery(params: seq<Param>): (q: Query)
    ensures Given(params, "keywords") ==> q.keywords == Lookup(params, "keywords").value
    ensures !Given(params, "keywords") ==> q.keywords == DefaultKeywords
    ensures Given(params, "category") ==> q.category == Lookup(params, "category").value
    ensures !Given(params, "category") ==> q.category == []
    ensures Given(params, "sortBy") ==> q.sortBy == Lookup(params, "sortBy").value
    ensures !Given(params, "sortBy") ==> q.sortBy == DefaultSortBy
    ensures q.keywords != [] && q.sortBy != []
  {
    Query(
      OrElse(Lookup(params, "keywords"), DefaultKeywords),
      OrElse(Lookup(params, "category"), []),
      OrElse(Lookup(params, "sortBy"), DefaultSortBy))
  }

  /** `process.env.NEWS_API_KEY || 'demo'`. */
  function ApiKey(env: Option<Str>): (k: Str)
    ensures k != []
    ensures env.Some? && env.value != [] ==> k == env.value
    ensures env.None? || env.value == [] ==> k == DemoApiKey
  {
    OrElse(env, DemoApiKey)
  }

  // ---------------------------------------------------------------------------
  // Upstream URL
  // ---------------------------------------------------------------------------

  /** A category selects the top-headlines endpoint; without one, the keywords
      are searched on the everything endpoint. Only the keywords are
      URL-encoded. Whatever the filters hold, the request goes to the endpoint
      the category selects. */
  function UpstreamUrl(q: Query, apiKey: Str): (url: Str)
    ensures Endpoint(url) == if q.category != [] then TopHeadlinesEndpoint else EverythingEndpoint
  {
    if q.category != [] then
      TopHeadlinesEndpointOf(q.category, q.sortBy, apiKey);
      TopHeadlinesEndpoint + "?category=" + q.category + "&sortBy=" + q.sortBy + "&apiKey=" + apiKey
    else
      EverythingEndpointOf(EncodeUriComponent(q.keywords), q.sortBy, apiKey);
      EverythingEndpoint + "?q=" + EncodeUriComponent(q.keywords) + "&sortBy=" + q.sortBy
        + "&language=en&apiKey=" + apiKey
  }

  lemma TopHeadlinesEndpointOf(category: Str, sortBy: Str, apiKey: Str)
    ensures Endpoint(TopHeadlinesEndpoint + "?category=" + category + "&sortBy=" + sortBy + "&apiKey=" + apiKey)
         == TopHeadlinesEndpoint
  {
    var rest := "category=" + category + "&sortBy=" + sortBy + "&apiKey=" + apiKey;
    assert TopHeadlinesEndpoint + "?category=" + category + "&sortBy=" + sortBy + "&apiKey=" + apiKey
        == TopHeadlinesEndpoint + "?" + rest;
    PlainEndpoints();
    EndpointOf(TopHeadlinesEndpoint, rest);
  }

  lemma EverythingEndpointOf(encoded: Str, sortBy: Str, apiKey: Str)
    ensures Endpoint(EverythingEndpoint + "?q=" + encoded + "&sortBy=" + sortBy + "&language=en&apiKey=" + apiKey)
         == EverythingEndpoint
  {
    var rest := "q=" + encoded + "&sortBy=" + sortBy + "&language=en&apiKey=" + apiKey;
    assert EverythingEndpoint + "?q=" + encoded + "&sortBy=" + sortBy + "&language=en&apiKey=" + apiKey
        == EverythingEndpoint + "?" + rest;
    PlainEndpoints();
    EndpointOf(EverythingEndpoint, rest);
  }

  /** A URL without its fragment: everything before the first `#`. */
  function WithoutFragment(url: Str): Str {
    SplitFirst(url, '#').0
  }

  /** The part of a URL before its query string. */
  function Endpoint(url: Str): Str {
    SplitFirst(WithoutFragment(url), '?').0
  }

  /** The parameters of a URL's query string, read raw; the query ends where
      the fragment begins. */
  function UrlParams(url: Str): seq<Param> {
    ParseQuery(SplitFirst(WithoutFragment(url), '?').1)
  }

  /** An endpoint free of `?` and `#` is what precedes the query, whatever
      follows the `?`. */
  lemma EndpointOf(endpoint: Str, rest: Str)
    requires '?' !in endpoint && '#' !in endpoint
    ensures Endpoint(endpoint + "?" + rest) == endpoint
  {
    assert endpoint + "?" + rest == (endpoint + "?") + rest;
    SplitFirstPrefix(endpoint + "?", rest, '#');
    var cut := SplitFirst(rest, '#').0;
    assert WithoutFragment(endpoint + "?" + rest) == endpoint + ['?'] + cut;
    SplitFirstAt(endpoint, '?', cut);
  }

  /** Parameters whose keys and values hold no `#`. */
  predicate Unfragmented(ps: seq<Param>) {
    forall i :: 0 <= i < |ps| ==> '#' !in ps[i].0 && '#' !in ps[i].1
  }

  /** An endpoint followed by `?` and a query string reads back as both. */
  lemma UrlRoundTrip(endpoint: Str, ps: seq<Param>)
    requires '?' !in endpoint && '#' !in endpoint
    requires |ps| >= 1 && Transportable(ps) && Unfragmented(ps)
    ensures Endpoint(endpoint + "?" + FormatQuery(ps)) == endpoint
    ensures UrlParams(endpoint + "?" + FormatQuery(ps)) == ps
  {
    FormatQueryAvoids(ps, '#');
    assert '#' !in endpoint + "?" + FormatQuery(ps);
    SplitFirstAt(endpoint, '?', FormatQuery(ps));
    QueryRoundTrip(ps);
  }

  lemma FormatQueryCons(p: Param, ps: seq<Param>)
    requires |ps| >= 1
    ensures FormatQuery([p] + ps) == p.0 + "=" + p.1 + "&" + FormatQuery(ps)
  {
    assert ([p] + ps)[1..] == ps;
    assert Pieces([p] + ps) == [p.0 + "=" + p.1] + Pieces(ps);
    assert (Pieces([p] + ps))[1..] == Pieces(ps);
  }

  lemma FormatQuery3(p0: Param, p1: Param, p2: Param)
    ensures FormatQuery([p0, p1, p2]) == p0.0 + "=" + p0.1 + "&" + p1.0 + "=" + p1.1 + "&" + p2.0 + "=" + p2.1
  {
    assert Pieces([p2]) == [p2.0 + "=" + p2.1];
    FormatQueryCons(p1, [p2]);
    assert [p1] + [p2] == [p1, p2];
    FormatQueryCons(p0, [p1, p2]);
    assert [p0] + [p1, p2] == [p0, p1, p2];
  }

  lemma FormatQuery4(p0: Param, p1: Param, p2: Param, p3: Param)
    ensures FormatQuery([p0, p1, p2, p3])
         == p0.0 + "=" + p0.1 + "&" + p1.0 + "=" + p1.1 + "&" + p2.0 + "=" + p2.1 + "&" + p3.0 + "=" + p3.1
  {
    FormatQuery3(p1, p2, p3);
    FormatQueryCons(p0, [p1, p2, p3]);
    assert [p0] + [p1, p2, p3] == [p0, p1, p2, p3];
  }

  /** The parameter names the route writes hold no separator. */
  lemma PlainKeys()
    ensures NoSeparator("category") && NoSeparator("sortBy") && NoSeparator("apiKey")
    ensures NoSeparator("q") && NoSeparator("language") && NoSeparator("en")
  {
  }

  /** Nor do its endpoints: no query and no fragment starts inside them. */
  lemma PlainEndpoints()
    ensures '?' !in TopHeadlinesEndpoint && '#' !in TopHeadlinesEndpoint
    ensures '?' !in EverythingEndpoint && '#' !in EverythingEndpoint
  {
    assert '?' !in TopHeadlinesEndpoint;
    assert '#' !in TopHeadlinesEndpoint;
    assert '?' !in EverythingEndpoint;
  }

  /** A key or value that splits no query string and starts no fragment. */
  predicate NoSeparator(s: Str) {
    '=' !in s && '&' !in s && '#' !in s
  }

  /** The top-headlines template, read back, gives its endpoint and its three
      parameters. */
  lemma TopHeadlinesParams(category: Str, sortBy: Str, apiKey: Str)
    requires '&' !in category && '&' !in sortBy && '&' !in apiKey
    requires '#' !in category && '#' !in sortBy && '#' !in apiKey
    ensures var url := TopHeadlinesEndpoint + "?category=" + category + "&sortBy=" + sortBy + "&apiKey=" + apiKey;
      && Endpoint(url) == TopHeadlinesEndpoint
      && UrlParams(url) == [("category", category), ("sortBy", sortBy), ("apiKey", apiKey)]
  {
    var ps := [("category", category), ("sortBy", sortBy), ("apiKey", apiKey)];
    TopHeadlinesShape(category, sortBy, apiKey);
    PlainKeys();
    PlainEndpoints();
    assert Transportable(ps) && Unfragmented(ps);
    UrlRoundTrip(TopHeadlinesEndpoint, ps);
  }

  /** The top-headlines template is the endpoint, `?`, and a query string. */
  lemma TopHeadlinesShape(category: Str, sortBy: Str, apiKey: Str)
    ensures TopHeadlinesEndpoint + "?category=" + category + "&sortBy=" + sortBy + "&apiKey=" + apiKey
         == TopHeadlinesEndpoint + "?" + FormatQuery([("category", category), ("sortBy", sortBy), ("apiKey", apiKey)])
  {
    FormatQuery3(("category", category), ("sortBy", sortBy), ("apiKey", apiKey));
    assert "?category=" == "?" + "category" + "=";
    assert "&sortBy=" == "&" + "sortBy" + "=";
    assert "&apiKey=" == "&" + "apiKey" + "=";
  }

  /** With a category, the request goes to top-headlines and carries exactly
      the category, the sort order and the key: no search term. */
  lemma TopHeadlinesUrl(q: Query, apiKey: Str)
    requires q.category != []
    requires '&' !in q.category && '&' !in q.sortBy && '&' !in apiKey
    requires '#' !in q.category && '#' !in q.sortBy && '#' !in apiKey
    ensures Endpoint(UpstreamUrl(q, apiKey)) == TopHeadlinesEndpoint
    ensures UrlParams(UpstreamUrl(q, apiKey)) == [("category", q.category), ("sortBy", q.sortBy), ("apiKey", apiKey)]
    ensures Lookup(UrlParams(UpstreamUrl(q, apiKey)), "q") == None
  {
    TopHeadlinesParams(q.category, q.sortBy, apiKey);
  }

  /** Regrouping a URL built from four parameters. */
  lemma Regroup(e: Str, k0: Str, v0: Str, k1: Str, v1: Str, k2: Str, v2: Str, k3: Str, v3: Str)
    ensures e + "?" + (k0 + "=" + v0 + "&" + k1 + "=" + v1 + "&" + k2 + "=" + v2 + "&" + k3 + "=" + v3)
         == e + ("?" + k0 + "=") + v0 + ("&" + k1 + "=") + v1 + ("&" + k2 + "=" + v2 + "&" + k3 + "=") + v3
  {
  }

  /** The everything template is the endpoint, `?`, and a query string. */
  lemma EverythingShape(encoded: Str, sortBy: Str, apiKey: Str)
    ensures EverythingEndpoint + "?q=" + encoded + "&sortBy=" + sortBy + "&language=en&apiKey=" + apiKey
         == EverythingEndpoint + "?"
            + FormatQuery([("q", encoded), ("sortBy", sortBy), ("language", "en"), ("apiKey", apiKey)])
  {
    FormatQuery4(("q", encoded), ("sortBy", sortBy), ("language", "en"), ("apiKey", apiKey));
    Regroup(EverythingEndpoint, "q", encoded, "sortBy", sortBy, "language", "en", "apiKey", apiKey);
    assert "?" + "q" + "=" == "?q=";
    assert "&" + "sortBy" + "=" == "&sortBy=";
    assert "&" + "language" + "=" + "en" + "&" + "apiKey" + "=" == "&language=en&apiKey=";
  }

  /** Without a category, the request goes to everything, and its `q`
      parameter decodes to the keywords; the sort order and `language=en`
      ride along. */
  lemma EverythingUrl(q: Query, apiKey: Str)
    requires q.category == []
    requires '&' !in q.sortBy && '&' !in apiKey
    requires '#' !in q.sortBy && '#' !in apiKey
    ensures Endpoint(UpstreamUrl(q, apiKey)) == EverythingEndpoint
    ensures UrlParams(UpstreamUrl(q, apiKey))
         == [("q", EncodeUriComponent(q.keywords)), ("sortBy", q.sortBy), ("language", "en"), ("apiKey", apiKey)]
    ensures DecodeUriComponent(Lookup(UrlParams(UpstreamUrl(q, apiKey)), "q").value) == Some(q.keywords)
  {
    var e := EncodeUriComponent(q.keywords);
    EncodedHasNoSeparator(q.keywords);
    EverythingParams(e, q.sortBy, apiKey);
    EncodeRoundTrip(q.keywords);
  }

  /** encodeURIComponent never emits `&` or `#`. */
  lemma EncodedHasNoSeparator(s: Str)
    ensures '&' !in EncodeUriComponent(s) && '#' !in EncodeUriComponent(s)
  {
  }

  /** The everything template, read back, gives its endpoint and its four
      parameters. */
  lemma EverythingParams(encoded: Str, sortBy: Str, apiKey: Str)
    requires '&' !in encoded && '&' !in sortBy && '&' !in apiKey
    requires '#' !in encoded && '#' !in sortBy && '#' !in apiKey
    ensures var url := EverythingEndpoint + "?q=" + encoded + "&sortBy=" + sortBy + "&language=en&apiKey=" + apiKey;
      && Endpoint(url) == EverythingEndpoint
      && UrlParams(url) == [("q", encoded), ("sortBy", sortBy), ("language", "en"), ("apiKey", apiKey)]
  {
    var ps := [("q", encoded), ("sortBy", sortBy), ("language", "en"), ("apiKey", apiKey)];
    EverythingShape(encoded, sortBy, apiKey);
    PlainKeys();
    PlainEndpoints();
    assert Transportable(ps) && Unfragmented(ps);
    UrlRoundTrip(EverythingEndpoint, ps);
  }

  /** With a category the keywords play no part in the request. */
  lemma KeywordsIgnoredWithCategory(q: Query, keywords: Str, apiKey: Str)
    requires q.category != []
    ensures UpstreamUrl(q.(keywords := keywords), apiKey) == UpstreamUrl(q, apiKey)
  {
  }

  /** The category is not encoded: a category of the form `c&k=v` puts an
      extra parameter `k=v` into the top-headlines request (`&q=...` smuggles a
      search term in). */
  lemma CategoryNotEncoded(keywords: Str, category: Str, key: Str, value: Str, sortBy: Str, apiKey: Str)
    requires '&' !in category && '&' !in value && '&' !in sortBy && '&' !in apiKey
    requires '=' !in key && '&' !in key
    requires '#' !in category && '#' !in key && '#' !in value && '#' !in sortBy && '#' !in apiKey
    ensures UrlParams(UpstreamUrl(Query(keywords, category + "&" + key + "=" + value, sortBy), apiKey))
         == [("category", category), (key, value), ("sortBy", sortBy), ("apiKey", apiKey)]
  {
    var ps := [("category", category), (key, value), ("sortBy", sortBy), ("apiKey", apiKey)];
    InjectedShape(category, key, value, sortBy, apiKey);
    PlainKeys();
    PlainEndpoints();
    assert Transportable(ps) && Unfragmented(ps);
    UrlRoundTrip(TopHeadlinesEndpoint, ps);
  }

  lemma InjectedShape(category: Str, key: Str, value: Str, sortBy: Str, apiKey: Str)
    ensures var injected := category + "&" + key + "=" + value;
      TopHeadlinesEndpoint + "?category=" + injected + "&sortBy=" + sortBy + "&apiKey=" + apiKey
      == TopHeadlinesEndpoint + "?" + FormatQuery([("category", category), (key, value), ("sortBy", sortBy), ("apiKey", apiKey)])
  {
    var injected := category + "&" + key + "=" + value;
    var ps := [("category", category), (key, value), ("sortBy", sortBy), ("apiKey", apiKey)];
    TopHeadlinesShape(injected, sortBy, apiKey);
    FormatQuery3(("category", injected), ("sortBy", sortBy), ("apiKey", apiKey));
    FormatQuery4(ps[0], ps[1], ps[2], ps[3]);
  }

  /** Nor is a `#` in the category escaped: it starts the URL's fragment, so
      the request carries only the category's text before it, and neither
      the sort order nor the key. A category that starts with `#` still
      selects top-headlines, and sends an empty category. */
  lemma CategoryFragmentCut(keywords: Str, category: Str, rest: Str, sortBy: Str, apiKey: Str)
    requires '&' !in category && '#' !in category
    ensures UrlParams(UpstreamUrl(Query(keywords, category + "#" + rest, sortBy), apiKey))
         == [("category", category)]
  {
    var front := TopHeadlinesEndpoint + "?category=" + category;
    var back := rest + "&sortBy=" + sortBy + "&apiKey=" + apiKey;
    var ps := [("category", category)];
    FragmentShape(category, rest, sortBy, apiKey);
    PlainKeys();
    PlainEndpoints();
    assert '#' !in "?category=";
    SplitFirstAt(front, '#', back);
    assert Transportable(ps) && Unfragmented(ps);
    UrlRoundTrip(TopHeadlinesEndpoint, ps);
  }

  lemma FragmentShape(category: Str, rest: Str, sortBy: Str, apiKey: Str)
    ensures TopHeadlinesEndpoint + "?category=" + (category + "#" + rest) + "&sortBy=" + sortBy + "&apiKey=" + apiKey
         == (TopHeadlinesEndpoint + "?category=" + category) + ['#'] + (rest + "&sortBy=" + sortBy + "&apiKey=" + apiKey)
    ensures TopHeadlinesEndpoint + "?category=" + category == TopHeadlinesEndpoint + "?" + FormatQuery([("category", category)])
  {
    assert Pieces([("category", category)]) == ["category" + "=" + category];
    assert "?category=" == "?" + "category" + "=";
  }

  // ---------------------------------------------------------------------------
  // Placeholder articles
  // ---------------------------------------------------------------------------

  const SourcePrefix: Str := "News Source "
  const AuthorPrefix: Str := "Author "
  const UrlPrefix: Str := "https://example.com/article-"
  const ImagePrefix: Str := "https://picsum.photos/seed/"
  const TitlePrefix: Str := "Breaking: "
  const DescriptionPrefix: Str := "Latest updates on "
  const ContentPrefix: Str := "Full article content about "

  /** What the placeholders are about: the category when there is one,
      otherwise the keywords; never empty when the keywords are not. */
  function Topic(keywords: Str, category: Str): (t: Str)
    ensures category != [] ==> t == category
    ensures category == [] ==> t == keywords
    ensures keywords != [] ==> t != []
  {
    if category != [] then category else keywords
  }

  /** Placeholder article `i` (counting from 0) on `topic`. Its source name,
      author and URL read back as the number `i + 1`; its title, description,
      content and image URL name the topic; it is stamped `i` hours before
      `now`. */
  function MockArticle(topic: Str, i: nat, now: int, iso: int -> Str): (a: Article)
    ensures a.source.id == None && NumberAfter(a.source.name, SourcePrefix) == Some(i + 1)
    ensures a.author.Some? && NumberAfter(a.author.value, AuthorPrefix) == Some(i + 1)
    ensures NumberAfter(a.url, UrlPrefix) == Some(i + 1)
    ensures Contains(a.title, topic) && Contains(a.description, topic) && Contains(a.content, topic)
    ensures a.urlToImage.Some? && Contains(a.urlToImage.value, topic)
    ensures a.publishedAt == iso(now - i * HourMs)
  {
    var number := Decimal(i + 1);
    var titleTail := " - Major developments in the industry (" + number + ")";
    var descriptionTail := ". Experts discuss the implications and what this means for the future."
      + " This is a detailed analysis of recent events and trends.";
    var contentTail := ". This includes detailed information, analysis, and expert opinions on the"
      + " subject matter. Stay tuned for more updates.";
    var imageTail := "-" + Decimal(i) + "/800/600";
    NumberAfterDecimal(SourcePrefix, i + 1);
    NumberAfterDecimal(AuthorPrefix, i + 1);
    NumberAfterDecimal(UrlPrefix, i + 1);
    ContainsMiddle(TitlePrefix, topic, titleTail);
    ContainsMiddle(DescriptionPrefix, topic, descriptionTail);
    ContainsMiddle(ContentPrefix, topic, contentTail);
    ContainsMiddle(ImagePrefix, topic, imageTail);
    Article(
      Source(None, SourcePrefix + number),
      Some(AuthorPrefix + number),
      TitlePrefix + topic + titleTail,
      DescriptionPrefix + topic + descriptionTail,
      UrlPrefix + number,
      Some(ImagePrefix + topic + imageTail),
      iso(now - i * HourMs),
      ContentPrefix + topic + contentTail)
  }

  /** generateMockArticles: ten placeholders, the i-th stamped `i` hours
      before `now`. */
  function GenerateMockArticles(keywords: Str, category: Str, now: int, iso: int -> Str): (r: seq<Article>)
    ensures |r| == MockCount
  {
    var topic := Topic(keywords, category);
    seq(MockCount, i requires 0 <= i < MockCount => MockArticle(topic, i, now, iso))
  }

  /** The number written after `prefix` in `s`, if `s` is `prefix` and digits. */
  function NumberAfter(s: Str, prefix: Str): Option<nat> {
    if |prefix| <= |s| && s[..|prefix|] == prefix && forall k :: |prefix| <= k < |s| ==> IsDigit(s[k]) then
      var digits := s[|prefix|..];
      assert forall k :: 0 <= k < |digits| ==> digits[k] == s[|prefix| + k];
      Some(DigitsValue(digits))
    else None
  }

  lemma NumberAfterDecimal(prefix: Str, n: nat)
    ensures NumberAfter(prefix + Decimal(n), prefix) == Some(n)
  {
    var s := prefix + Decimal(n);
    assert s[..|prefix|] == prefix && s[|prefix|..] == Decimal(n);
    DecimalRoundTrip(n);
  }

  /** Placeholder `i` is labelled `i + 1` in its source name, its author and
      its URL, and its source has no id. */
  lemma MockNumbering(keywords: Str, category: Str, now: int, iso: int -> Str, i: nat)
    requires i < MockCount
    ensures var a := GenerateMockArticles(keywords, category, now, iso)[i];
      && a.source.id == None
      && NumberAfter(a.source.name, SourcePrefix) == Some(i + 1)
      && a.author.Some? && NumberAfter(a.author.value, AuthorPrefix) == Some(i + 1)
      && NumberAfter(a.url, UrlPrefix) == Some(i + 1)
  {
    assert GenerateMockArticles(keywords, category, now, iso)[i] == MockArticle(Topic(keywords, category), i, now, iso);
  }

  /** No two placeholders share a URL. */
  lemma MockUrlsDistinct(keywords: Str, category: Str, now: int, iso: int -> Str, i: nat, j: nat)
    requires i < MockCount && j < MockCount && i != j
    ensures GenerateMockArticles(keywords, category, now, iso)[i].url
         != GenerateMockArticles(keywords, category, now, iso)[j].url
  {
    var r := GenerateMockArticles(keywords, category, now, iso);
    var topic := Topic(keywords, category);
    assert r[i] == MockArticle(topic, i, now, iso) && r[j] == MockArticle(topic, j, now, iso);
    assert r[i].url[|UrlPrefix|..] == Decimal(i + 1);
    assert r[j].url[|UrlPrefix|..] == Decimal(j + 1);
    DecimalInjective(i + 1, j + 1);
  }

  /** Every placeholder's title, description, content and image seed name the
      topic: the category if there is one, else the keywords. */
  lemma MockTopic(keywords: Str, category: Str, now: int, iso: int -> Str, i: nat)
    requires i < MockCount
    ensures var a := GenerateMockArticles(keywords, category, now, iso)[i];
            var topic := if category != [] then category else keywords;
      && Contains(a.title, topic)
      && Contains(a.description, topic)
      && Contains(a.content, topic)
      && a.urlToImage.Some? && Contains(a.urlToImage.value, topic)
  {
    assert GenerateMockArticles(keywords, category, now, iso)[i] == MockArticle(Topic(keywords, category), i, now, iso);
  }

  /** Read back through any `parse` that inverts `iso`, the placeholder
      timestamps start at `now` and step back exactly one hour each, so they
      strictly decrease. */
  lemma MockTimestamps(keywords: Str, category: Str, now: int, iso: int -> Str, parse: Str -> int)
    requires forall t :: parse(iso(t)) == t
    ensures var r := GenerateMockArticles(keywords, category, now, iso);
      && parse(r[0].publishedAt) == now
      && (forall i :: 0 <= i < MockCount - 1 ==> parse(r[i].publishedAt) - parse(r[i + 1].publishedAt) == HourMs)
      && (forall i, j :: 0 <= i < j < MockCount ==> parse(r[j].publishedAt) < parse(r[i].publishedAt))
  {
    var r := GenerateMockArticles(keywords, category, now, iso);
    forall i | 0 <= i < MockCount ensures parse(r[i].publishedAt) == now - i * HourMs {
      assert r[i].publishedAt == iso(now - i * HourMs);
    }
  }

  // ---------------------------------------------------------------------------
  // The route
  // ---------------------------------------------------------------------------

  /** The fallback body: status `ok`, a total of 10, the ten placeholders. */
  function MockPayload(q: Query, now: int, iso: int -> Str): (p: NewsPayload)
    ensures p.status == "ok"
    ensures p.totalResults == |p.articles| == MockCount
  {
    NewsPayload("ok", 10, GenerateMockArticles(q.keywords, q.category, now, iso))
  }

  /** The URL the route fetches for a request. */
  function RequestedUrl(params: seq<Param>, env: Option<Str>): Str {
    UpstreamUrl(ReadQuery(params), ApiKey(env))
  }

  /** `response.ok`: a status in the 2xx range. */
  predicate IsOk(status: int) {
    200 <= status <= 299
  }

  /** The service answered 2xx with a body that parses as JSON. */
  predicate Succeeded<P>(outcome: FetchOutcome<P>) {
    outcome.Responded? && IsOk(outcome.status) && outcome.body.Some?
  }

  /** GET /api/news. The upstream JSON comes back untouched when the service
      answers 2xx with parseable JSON; a non-2xx answer, a thrown fetch and a
      body that is not JSON all give the placeholder payload. */
  function Get<P>(params: seq<Param>, env: Option<Str>, fetch: Str -> FetchOutcome<P>,
                  now: int, iso: int -> Str): (r: Reply<P>)
    ensures r.Passthrough? <==> Succeeded(fetch(RequestedUrl(params, env)))
    ensures r.Passthrough? ==> fetch(RequestedUrl(params, env)).body == Some(r.data)
    ensures r.Fallback? ==> r.payload == MockPayload(ReadQuery(params), now, iso)
  {
    var q := ReadQuery(params);
    var url := UpstreamUrl(q, ApiKey(env));
    match fetch(url)
    case Responded(status, Some(data)) =>
      if IsOk(status) then Passthrough(data) else Fallback(MockPayload(q, now, iso))
    case _ => Fallback(MockPayload(q, now, iso))
  }

  /** An answer whose body parses as JSON is passed through exactly when its
      status is 2xx (`response.ok`); 1xx, 3xx, 4xx and 5xx answers give the
      placeholders. */
  lemma StatusDecides<P>(params: seq<Param>, env: Option<Str>, fetch: Str -> FetchOutcome<P>,
                         now: int, iso: int -> Str, status: int, data: P)
    requires fetch(RequestedUrl(params, env)) == Responded(status, Some(data))
    ensures 200 <= status <= 299 ==> Get(params, env, fetch, now, iso) == Passthrough(data)
    ensures status < 200 || 299 < status ==>
              Get(params, env, fetch, now, iso) == Fallback(MockPayload(ReadQuery(params), now, iso))
  {
  }

  /** The fallback payload is consistent: its total is the number of
      articles it carries (ten), its status is `ok`, and its topic is never
      empty, since missing keywords default to "technology". */
  lemma FallbackConsistent(params: seq<Param>, now: int, iso: int -> Str)
    ensures var q := ReadQuery(params);
            var body := MockPayload(q, now, iso);
      && body.status == "ok"
      && body.totalResults == |body.articles| == MockCount
      && Topic(q.keywords, q.category) != []
  {
  }

  /** A service that fails answers with the same placeholders whatever the
      failure was. */
  lemma FailuresAlike<P>(params: seq<Param>, env: Option<Str>, f: Str -> FetchOutcome<P>, g: Str -> FetchOutcome<P>,
                         now: int, iso: int -> Str)
    requires !Succeeded(f(RequestedUrl(params, env))) && !Succeeded(g(RequestedUrl(params, env)))
    ensures Get(params, env, f, now, iso) == Get(params, env, g, now, iso)
  {
  }
}
