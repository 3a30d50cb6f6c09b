/**
 * The simple checker: one profile-page request per handle (one retry after a
 * rate limit), a keyword reading of the page body, and the batch that buckets
 * handles into live / die / error.
 *
 * The HTTP session is replaced by `fetch(url, attempt)`: the reply to the
 * `attempt`-th request (0 or 1) for `url`.
 */
module Checker {
  import opened Common
  import opened Text

  // ===========================================================================
  // Handle normalization

  /** Strip, drop leading '@', strip again, keep only `[A-Za-z0-9._]`. */
  function Normalize(u: string): (r: string)
    ensures IsHandle(r) && |r| <= |u|
  {
    Filter(Strip(LStripChar(Strip(u), '@')))
  }

  /** The strips are redundant: normalization is exactly the character filter. */
  lemma NormalizeIsFilter(u: string)
    ensures Normalize(u) == Filter(u)
  {
    FilterStrip(LStripChar(Strip(u), '@'));
    FilterLStrip(Strip(u), '@');
    FilterStrip(u);
  }

  lemma NormalizeIdempotent(u: string)
    ensures Normalize(Normalize(u)) == Normalize(u)
  {
    NormalizeIsFilter(u);
    NormalizeIsFilter(Normalize(u));
    FilterIdempotent(u);
  }

  // ===========================================================================
  // Reading a page body

  /** Phrases of the "no such account" templates. */
  const NotFoundPhrases: seq<string> := [
    "couldn't find this account",
    "account not found",
    "page not available",
    "this page isn't available",
    "page unavailable",
    "http 404",
    "sign up for tiktok"
  ]

  /** Words read as a suspension or ban. */
  const BanWords: seq<string> := ["suspend", "suspended", "ban", "banned", "block", "blocked"]

  /** The three stems every ban word starts with. */
  const BanStems: seq<string> := ["suspend", "ban", "block"]

  /** Profile metadata markers. */
  const ProfileMarkers: seq<string> := ["property=\"og:url\"", "og:title", "tt-user-header"]

  /** Counter labels of a profile page. */
  const CounterLabels: seq<string> := ["followers", "following", "likes"]

  predicate SaysDie(lower: string)
  {
    ContainsAny(lower, NotFoundPhrases) || ContainsAny(lower, BanWords)
  }

  predicate SaysLive(lower: string)
  {
    ContainsAny(lower, ProfileMarkers) || ContainsAny(lower, CounterLabels)
  }

  /**
   * The verdict of a page body, matched case-insensitively: die on any
   * not-found phrase or ban word, otherwise live on any profile marker or
   * counter label, otherwise error.
   */
  function ParseStatus(html: string): (s: Status)
    ensures s == Banned <==> SaysDie(Lower(html))
    ensures s == Live <==> !SaysDie(Lower(html)) && SaysLive(Lower(html))
    ensures s == Error <==> !SaysDie(Lower(html)) && !SaysLive(Lower(html))
  {
    var lower := Lower(html);
    if ContainsAny(lower, NotFoundPhrases) then Banned
    else if ContainsAny(lower, BanWords) then Banned
    else if ContainsAny(lower, ProfileMarkers) then Live
    else if ContainsAny(lower, CounterLabels) then Live
    else Error
  }

  /** The reading depends only on the lower-cased text. */
  lemma ParseStatusIgnoresCase(html: string)
    ensures ParseStatus(Lower(html)) == ParseStatus(html)
  {
    LowerIdempotent(html);
  }

  /** The longer ban words add nothing: each contains one of the stems. */
  lemma BanWordsAreStems(t: string)
    ensures ContainsAny(t, BanWords) <==> ContainsAny(t, BanStems)
  {
    if ContainsAny(t, BanWords) {
      var k :| 0 <= k < |BanWords| && Contains(t, BanWords[k]);
      if k == 1 {
        ContainsPart(t, BanWords[1], 0, 7);
        assert BanWords[1][0..7] == BanStems[0];
      } else if k == 3 {
        ContainsPart(t, BanWords[3], 0, 3);
        assert BanWords[3][0..3] == BanStems[1];
      } else if k == 5 {
        ContainsPart(t, BanWords[5], 0, 5);
        assert BanWords[5][0..5] == BanStems[2];
      } else {
        assert BanWords[k] == BanStems[k / 2];
      }
    }
    if ContainsAny(t, BanStems) {
      var k :| 0 <= k < |BanStems| && Contains(t, BanStems[k]);
      assert BanStems[k] == BanWords[2 * k];
    }
  }

  /**
   * A ban stem anywhere in the page (the word "block" of a style sheet's
   * `display:block`, say) makes it die, whatever profile markers it also has.
   */
  lemma BanStemMeansDie(html: string, k: nat)
    requires k < |BanStems| && Contains(Lower(html), BanStems[k])
    ensures ParseStatus(html) == Banned
  {
    BanWordsAreStems(Lower(html));
  }

  // ===========================================================================
  // One handle

  const Endpoint: string := "https://www.tiktok.com/@"

  predicate Followed(code: int) { code == 200 || code == 301 || code == 302 }

  predicate RateLimited(r: Reply) { r.Response? && r.code == 429 }

  /** The verdict one reply settles; `None` when it settles nothing. */
  function Settles(r: Reply): (v: Raises<Option<Status>>)
    ensures r.Crashed? <==> v.Raised?
    ensures r.RequestFailed? ==> v == Returns(Some(Error))
    ensures r.Response? && r.code == 404 ==> v == Returns(Some(Banned))
    ensures r.Response? && Followed(r.code) ==> v == Returns(Some(ParseStatus(r.body)))
    ensures v == Returns(None) <==> r.Response? && r.code != 404 && !Followed(r.code)
  {
    match r
    case Crashed(e) => Raised(e)
    case RequestFailed => Returns(Some(Error))
    case Response(code, body) =>
      if code == 404 then Returns(Some(Banned))
      else if Followed(code) then Returns(Some(ParseStatus(body)))
      else Returns(None)
  }

  /**
   * The verdict of a reply that gets no retry, after `n` requests, stated
   * code by code: 404 is die, 200/301/302 is the page reading, a request
   * failure and every other code (429 included) are error, and any other
   * exception escapes.
   */
  function ReadFinal(reply: Reply, n: nat): (r: (Raises<Status>, nat))
    ensures r.1 == n
    ensures reply.Crashed? <==> r.0.Raised?
    ensures reply.RequestFailed? ==> r.0 == Returns(Error)
    ensures reply.Response? && reply.code == 404 ==> r.0 == Returns(Banned)
    ensures reply.Response? && Followed(reply.code) ==> r.0 == Returns(ParseStatus(reply.body))
    ensures reply.Response? && reply.code != 404 && !Followed(reply.code) ==> r.0 == Returns(Error)
  {
    match reply
    case Crashed(e) => (Raised(e), n)
    case RequestFailed => (Returns(Error), n)
    case Response(code, body) =>
      (Returns(if code == 404 then Banned else if Followed(code) then ParseStatus(body) else Error), n)
  }

  /**
   * `check_one`: the verdict and the number of requests made. An empty
   * handle makes none; a 429 reply earns exactly one retry, whose reply is
   * read like the first except that it gets no retry of its own.
   */
  function CheckOne(username: string, fetch: (string, nat) -> Reply): (r: (Raises<Status>, nat))
    ensures Normalize(username) != [] && !RateLimited(fetch(Endpoint + Normalize(username), 0)) ==>
              r == ReadFinal(fetch(Endpoint + Normalize(username), 0), 1)
    ensures Normalize(username) != [] && RateLimited(fetch(Endpoint + Normalize(username), 0)) ==>
              r == ReadFinal(fetch(Endpoint + Normalize(username), 1), 2)
    ensures r.1 == 0 <==> Normalize(username) == []
    ensures r.1 == 0 ==> r.0 == Returns(Error)
    ensures r.1 == 2 <==> Normalize(username) != [] && RateLimited(fetch(Endpoint + Normalize(username), 0))
    ensures r.1 <= 2
    ensures r.0.Raised? ==> exists a: nat | a < r.1 :: fetch(Endpoint + Normalize(username), a).Crashed?
    ensures r.0 == Returns(Live) ==>
      exists a: nat | a < r.1 :: fetch(Endpoint + Normalize(username), a).Response?
        && Followed(fetch(Endpoint + Normalize(username), a).code)
        && ParseStatus(fetch(Endpoint + Normalize(username), a).body) == Live
  {
    var u := Normalize(username);
    if u == [] then (Returns(Error), 0)
    else
      var first := fetch(Endpoint + u, 0);
      match Settles(first)
      case Raised(e) => (Raised(e), 1)
      case Returns(Some(s)) => (Returns(s), 1)
      case Returns(None) =>
        if first.code == 429 then
          match Settles(fetch(Endpoint + u, 1))
          case Raised(e) => (Raised(e), 2)
          case Returns(v) => (Returns(if v.Some? then v.value else Error), 2)
        else (Returns(Error), 1)
  }

  /** Only a rate-limited first reply lets the second request matter. */
  lemma RetryOnlyAfter429(username: string, f: (string, nat) -> Reply, g: (string, nat) -> Reply)
    requires var url := Endpoint + Normalize(username); f(url, 0) == g(url, 0) && !RateLimited(f(url, 0))
    ensures CheckOne(username, f) == CheckOne(username, g)
  {
  }

  /** Two rate limits in a row give up with an error after two requests. */
  lemma TwiceRateLimitedIsError(username: string, fetch: (string, nat) -> Reply)
    requires Normalize(username) != []
    requires var url := Endpoint + Normalize(username);
      RateLimited(fetch(url, 0)) && RateLimited(fetch(url, 1))
    ensures CheckOne(username, fetch) == (Returns(Error), 2)
  {
  }

  /** Checking an already normalized handle changes nothing. */
  lemma CheckOneOnNormalized(username: string, fetch: (string, nat) -> Reply)
    ensures CheckOne(Normalize(username), fetch) == CheckOne(username, fetch)
  {
    NormalizeIdempotent(username);
  }

  // ===========================================================================
  // The batch

  /** `[_normalize_username(u) for u in usernames if _normalize_username(u)]` */
  function Items(raw: seq<string>): (r: seq<string>)
    ensures forall i :: 0 <= i < |r| ==> r[i] != [] && IsHandle(r[i])
    ensures |r| <= |raw|
  {
    if raw == [] then []
    else (if Normalize(raw[0]) != [] then [Normalize(raw[0])] else []) + Items(raw[1..])
  }

  /** The bucket a finished check lands in: an exception counts as an error. */
  function Verdict(r: Raises<Status>): (s: Status)
    ensures r.Returns? ==> s == r.value
    ensures r.Raised? ==> s == Error
  {
    if r.Returns? then r.value else Error
  }

  function Verdicts(items: seq<string>, fetch: (string, nat) -> Reply): (vs: seq<Status>)
    ensures |vs| == |items|
    ensures forall i :: 0 <= i < |items| ==> vs[i] == Verdict(CheckOne(items[i], fetch).0)
  {
    if items == [] then [] else [Verdict(CheckOne(items[0], fetch).0)] + Verdicts(items[1..], fetch)
  }

  /**
   * `check_many`, with the pool's completions taken in submission order:
   * every usable input lands in exactly one bucket.
   */
  function CheckMany(raw: seq<string>, fetch: (string, nat) -> Reply): (b: Buckets)
    ensures b.All() == multiset(Items(raw))
  {
    var items := Items(raw);
    Collect(items, Verdicts(items, fetch))
  }

  /** Each bucket holds exactly the handles whose check gave that verdict, in order. */
  lemma CheckManyBuckets(raw: seq<string>, fetch: (string, nat) -> Reply, s: Status)
    ensures CheckMany(raw, fetch).Get(s) == Pick(Items(raw), Verdicts(Items(raw), fetch), s)
  {
    CollectPicks(Items(raw), Verdicts(Items(raw), fetch), s);
  }

  /** A check that raised puts its handle in the error bucket. */
  lemma CrashLandsInError(raw: seq<string>, fetch: (string, nat) -> Reply, x: string)
    requires x in raw && CheckOne(x, fetch).0.Raised?
    ensures Normalize(x) in CheckMany(raw, fetch).Get(Error)
  {
    var items := Items(raw);
    var vs := Verdicts(items, fetch);
    ItemsHasUsable(raw, x);
    var i :| 0 <= i < |items| && items[i] == Normalize(x);
    CheckOneOnNormalized(x, fetch);
    assert vs[i] == Error;
    PickHasItem(items, vs, i);
    CheckManyBuckets(raw, fetch, Error);
  }

  /** Every input that normalizes to something is among the items. */
  lemma {:induction false} ItemsHasUsable(raw: seq<string>, x: string)
    requires x in raw && Normalize(x) != []
    ensures Normalize(x) in Items(raw)
  {
    if raw[0] != x {
      ItemsHasUsable(raw[1..], x);
    }
  }
}
