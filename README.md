# News proxy route — a Dafny model

This project models the server side of a small news aggregator: the route
`GET /api/news` (`app/api/news/route.ts`). The route reads three filters from
the request's query string: `keywords`, `category` and `sortBy`. A filter that
is missing or empty gets its default. The route then builds a NewsAPI URL. A
category selects the `top-headlines` endpoint. Without a category, the
URL-encoded keywords are searched on the `everything` endpoint. The route
fetches that URL and returns the service's JSON unchanged when the answer is
2xx. On any failure it returns a placeholder payload: ten generated articles
on the request's topic, stamped one hour apart going back from now.

Everything in the route is a pure construction, so the model is written in
functions and lemmas, in three modules:

- `Text` (`text.dfy`): strings, a query-string codec (`FormatQuery`,
  `ParseQuery`, `Lookup`) and decimal numerals (`Decimal`, `DigitsValue`).
  Each encoder has a decoder and a proved round trip. The decoders are the
  reference readers the URLs and article labels are read back with.
- `UriEncoding` (`uri_encoding.dfy`): JavaScript's `encodeURIComponent`,
  modelled concretely. It writes UTF-8 bytes as `%XX` and leaves unreserved
  characters as they are. A reference decoder comes with it, and the round
  trip between the two is proved.
- `NewsRoute` (`news_route.dfy`): parameter defaulting, the upstream URL,
  `generateMockArticles` and `GET` itself.

What the route gets from its environment comes into the model as parameters:

- the request's query parameters, already decoded, as a list of key/value pairs;
- the `NEWS_API_KEY` variable, as an `Option`;
- the current time, as integer milliseconds `now`;
- `Date.prototype.toISOString`, as a function `iso` from milliseconds to text;
- the upstream `fetch`, as a function from the URL to a `FetchOutcome`. An
  outcome is `Threw`, or `Responded(status, body)`, where `body` is `None`
  when the answer is not JSON.

A JSON parse failure on a 2xx answer is raised inside the `try` block. So it
ends in the placeholder payload, exactly like a non-2xx status or a thrown
fetch. `Get` and `FailuresAlike` state this.

## Model

| member | source | states |
|---|---|---|
| `Text.Lookup` | app/api/news/route.ts:5-7 | `searchParams.get`: None exactly when no pair has the key; otherwise the value of the first pair with that key |
| `NewsRoute.OrElse` | app/api/news/route.ts:5-7 | JavaScript's logical or of a string and a fallback: a present non-empty value is kept; null or empty gives the fallback |
| `NewsRoute.ReadQuery` | app/api/news/route.ts:4-7 | a given non-empty `keywords`, `category`, `sortBy` passes through unchanged; a missing or empty one becomes `technology`, the empty string, `publishedAt`; keywords and sortBy are never empty |
| `NewsRoute.ApiKey` | app/api/news/route.ts:11 | a non-empty `NEWS_API_KEY` is used as it is; otherwise the key is `demo`, so it is never empty |
| `NewsRoute.UpstreamUrl` | app/api/news/route.ts:13-18 | the request goes to the top-headlines endpoint exactly when the category is non-empty, and to the everything endpoint otherwise, whatever the filters and the key hold |
| `NewsRoute.TopHeadlinesUrl` | app/api/news/route.ts:13-15 | with a category, the URL read back has the top-headlines endpoint and exactly the parameters category, sortBy and apiKey, in order; it has no `q` |
| `NewsRoute.EverythingUrl` | app/api/news/route.ts:16-18 | without a category, the URL read back has the everything endpoint and exactly q, sortBy, `language=en` and apiKey; its `q` decodes to the keywords |
| `NewsRoute.TopHeadlinesParams` | app/api/news/route.ts:15 | the top-headlines template, read back, gives its endpoint and its three parameters |
| `NewsRoute.EverythingParams` | app/api/news/route.ts:17 | the everything template, read back, gives its endpoint and its four parameters |
| `NewsRoute.KeywordsIgnoredWithCategory` | app/api/news/route.ts:14-15 | with a category, changing the keywords does not change the URL |
| `NewsRoute.CategoryNotEncoded` | app/api/news/route.ts:15 | the category goes into the URL unencoded: a category `c&k=v` reads back as category `c` plus an extra parameter `k=v` |
| `NewsRoute.CategoryFragmentCut` | app/api/news/route.ts:15 | a `#` in the category is not escaped either: it starts the URL's fragment, so the request carries only the category's text before it (empty when the category starts with `#`), and neither sortBy nor the key |
| `UriEncoding.EncodeUriComponent` | app/api/news/route.ts:17 | `encodeURIComponent`'s output holds only unreserved characters and `%`, so no `&`, `=` or `?` |
| `UriEncoding.EncodeRoundTrip` | app/api/news/route.ts:17 | decoding the encoded keywords gives the keywords back |
| `UriEncoding.EncodeInjective` | app/api/news/route.ts:17 | different keywords give different `q` values |
| `Text.Decimal` | app/api/news/route.ts:54-58 | `${n}` for a natural number: at least one character, all digits, no leading zero |
| `Text.DecimalRoundTrip` | app/api/news/route.ts:54-58 | reading the numeral back gives the number |
| `NewsRoute.Topic` | app/api/news/route.ts:48 | JavaScript's logical or of category and keywords: the category when it is non-empty, otherwise the keywords; never empty when the keywords are not |
| `NewsRoute.MockArticle` | app/api/news/route.ts:52-62 | placeholder i: source id null, source name, author and URL reading back as the number i + 1; title, description, content and image URL naming the topic; stamped `iso(now - i * 3600000)` |
| `NewsRoute.GenerateMockArticles` | app/api/news/route.ts:47-51 | `generateMockArticles` returns exactly ten articles |
| `NewsRoute.MockNumbering` | app/api/news/route.ts:54-58 | article i's source name, author and URL each read back as the number i + 1; its `source.id` is null and its author is present |
| `NewsRoute.MockUrlsDistinct` | app/api/news/route.ts:58 | no two placeholder articles share a URL |
| `NewsRoute.MockTopic` | app/api/news/route.ts:48-61 | each article's title, description, content and image URL contain the topic: the category when it is non-empty, otherwise the keywords |
| `NewsRoute.MockTimestamps` | app/api/news/route.ts:49-60 | read back through any inverse of `iso`, article 0 is stamped `now`, adjacent articles are exactly one hour apart, and the stamps strictly decrease |
| `NewsRoute.MockPayload` | app/api/news/route.ts:26-30 | the fallback body has status `ok`, and its `totalResults` of 10 equals the number of articles it carries |
| `NewsRoute.StatusDecides` | app/api/news/route.ts:24-34 | `response.ok`: an answer with a JSON body is passed through when its status is 200 to 299, and gives the placeholder payload for any status outside that range |
| `NewsRoute.Get` | app/api/news/route.ts:3-45 | the reply passes the upstream body through exactly when the fetch of the requested URL answered 2xx with a JSON body; otherwise it is the placeholder payload for the defaulted query |
| `NewsRoute.FallbackConsistent` | app/api/news/route.ts:24-31 | the placeholder payload has status `ok`, and its `totalResults` equals its number of articles, which is ten; its topic is never empty |
| `NewsRoute.FailuresAlike` | app/api/news/route.ts:35-43 | a non-2xx answer, a thrown fetch and a body that is not JSON all give the same reply |

## Left out

- The network request, its 60-second revalidation cache (`next: { revalidate: 60 }`) and the JSON (de)serialisation of replies. These are I/O and framework behaviour. `fetch` is a function parameter, and a passed-through body is an opaque value of type `P`.
- `console.error` on a caught error. It is a side effect with no effect on the reply.
- Reading `process.env` and the clock. These are environment inputs, so they are parameters.
- `toISOString` is an uninterpreted parameter. Its RangeError for dates beyond ±8.64e15 ms cannot arise for the current time, so it is not modelled.
- `encodeURIComponent`'s URIError on a lone UTF-16 surrogate. Dafny characters are Unicode scalar values, so such a string cannot be written.
- The request's own query string is taken already decoded. URLSearchParams' percent-decoding and its reading of `+` as a space are not part of this model.
- The reference URL reader (`Endpoint`, `UrlParams`, `Text.ParseQuery`) cuts the fragment at the first `#` and reads parameters raw. It does not percent-decode them, and it does not read `+` as a space, as a server's URLSearchParams would. That is why `EverythingUrl` finds the encoded keywords in `q`, and `EncodeRoundTrip` turns them back into the keywords. It reads the string the route builds, not the one `fetch` sends: the WHATWG URL parser that `fetch` applies first removes every tab and newline, strips leading and trailing spaces and C0 control characters (so a `NEWS_API_KEY` ending in a newline arrives without it), and percent-encodes spaces, `"`, `<` and `>` in the query. None of that rewriting is modelled.
- NewsRoute.TopHeadlinesUrl: states the parameters read back only when the category, sortBy and key hold no `&` and no `#`. The route does not encode them; `CategoryNotEncoded` and `CategoryFragmentCut` show what happens otherwise. A `+` or `%` in them would also be read differently by the server, which the raw reader does not model.
- NewsRoute.EverythingUrl: states the parameters read back only when sortBy and the key hold no `&` and no `#`, for the same reason.
- app/page.tsx, the client page. It covers UI state, rendering, relative-time formatting, and the 30-second auto-refresh timer and its cleanup. The timer is concurrency and timing behaviour. The page builds its request by leaving out an empty category, which the route then defaults to the empty string anyway.
- app/layout.tsx. It holds static metadata and the HTML shell, with no logic.
