/**
 * The precise checker: handle normalization, the structured-data (API) probe
 * verdict, the HTML profile verdict ladder, the single-handle cascade that
 * stops at the first conclusive probe, and the batch that buckets handles by
 * verdict.
 *
 * Network I/O is replaced by two functions the caller supplies: `api` gives the
 * decoded reply of a JSON endpoint for a URL, `page` the reply for a profile
 * page URL.
 */
module Precise {
  import opened Common
  import opened Text
  import opened Json

  // ===========================================================================
  // Handle normalization

  /** `re.search(r"/@([A-Za-z0-9._]+)", s)` can match at position `i`. */
  predicate MarkerAt(s: string, i: nat)
  {
    i + 2 < |s| && s[i] == '/' && s[i + 1] == '@' && IsHandleChar(s[i + 2])
  }

  /** Length of the run of handle characters starting at `j`: the greedy `+`. */
  function RunLength(s: string, j: nat): (n: nat)
    requires j <= |s|
    ensures j + n <= |s|
    ensures forall k :: j <= k < j + n ==> IsHandleChar(s[k])
    ensures j + n < |s| ==> !IsHandleChar(s[j + n])
    decreases |s| - j
  {
    if j < |s| && IsHandleChar(s[j]) then 1 + RunLength(s, j + 1) else 0
  }

  /** The leftmost match position at or after `from`. */
  function SearchFrom(s: string, from: nat): (r: Option<nat>)
    requires from <= |s|
    ensures r.Some? ==> from <= r.value && MarkerAt(s, r.value)
    ensures r.Some? ==> forall i :: from <= i < r.value ==> !MarkerAt(s, i)
    ensures r.None? ==> forall i :: from <= i ==> !MarkerAt(s, i)
    decreases |s| - from
  {
    if from == |s| then None
    else if MarkerAt(s, from) then Some(from)
    else SearchFrom(s, from + 1)
  }

  /** `i` is the first position where the pattern can match. */
  predicate LeftmostMarker(s: string, i: nat)
  {
    MarkerAt(s, i) && forall j :: 0 <= j < i ==> !MarkerAt(s, j)
  }

  /** `v` is a run of handle characters starting at `j` that cannot be extended. */
  predicate MaximalRunAt(s: string, j: nat, v: string)
  {
    j + |v| <= |s| && s[j..j + |v|] == v && IsHandle(v) && (j + |v| == |s| || !IsHandleChar(s[j + |v|]))
  }

  /** Group 1 of the leftmost match: the handle that follows the first usable `/@`. */
  function UrlHandle(s: string): (r: Option<string>)
    ensures r.Some? ==> r.value != [] && IsHandle(r.value)
    ensures r.None? <==> forall i :: !MarkerAt(s, i)
    ensures r.Some? ==> exists i: nat :: LeftmostMarker(s, i) && MaximalRunAt(s, i + 2, r.value)
  {
    match SearchFrom(s, 0)
    case None => None
    case Some(i) =>
      var v := s[i + 2..i + 2 + RunLength(s, i + 2)];
      assert LeftmostMarker(s, i) && MaximalRunAt(s, i + 2, v);
      Some(v)
  }

  /** Whether `normalize_username` takes its URL branch for the stripped input `s`. */
  predicate UrlCase(s: string)
  {
    StartsWith(s, "http") && UrlHandle(s).Some?
  }

  /** `normalize_username`: a handle in `[A-Za-z0-9._]*`, empty when the input is unusable. */
  function Normalize(raw: string): (u: string)
    ensures IsHandle(u)
    ensures Blank(raw) ==> u == []
  {
    var s := Strip(raw);
    if s == [] then []
    else if UrlCase(s) then UrlHandle(s).value
    else Filter(if StartsWith(s, "@") then s[1..] else s)
  }

  /**
   * Outside the URL branch the result is the input with every character
   * outside the alphabet removed: stripping and the one-`@` cut are subsumed
   * by the filter.
   */
  lemma NormalizeFilters(raw: string)
    ensures UrlCase(Strip(raw)) ==> Normalize(raw) == UrlHandle(Strip(raw)).value
    ensures !UrlCase(Strip(raw)) ==> Normalize(raw) == Filter(raw)
  {
    var s := Strip(raw);
    FilterStrip(raw);
    if s != [] && !UrlCase(s) && StartsWith(s, "@") {
      assert s == "@" + s[1..];
      FilterAppend("@", s[1..]);
      FilterDropsJunk("@");
    }
  }

  /** A handle contains no `/`, so it never takes the URL branch. */
  lemma HandleHasNoMarker(s: string)
    requires IsHandle(s)
    ensures UrlHandle(s).None?
  {
    forall i: nat ensures !MarkerAt(s, i) {
      if i + 2 < |s| { HandleCharIsNotSpace(s[i]); }
    }
  }

  /** Normalizing twice is normalizing once. */
  lemma NormalizeIdempotent(raw: string)
    ensures Normalize(Normalize(raw)) == Normalize(raw)
  {
    var u := Normalize(raw);
    StripHandle(u);
    HandleHasNoMarker(u);
    NormalizeFilters(u);
    FilterKeepsHandles(u);
  }

  /** The search returns the leftmost match. */
  lemma {:induction false} SearchFindsFirst(s: string, from: nat, at: nat)
    requires from <= at && MarkerAt(s, at)
    requires forall i :: from <= i < at ==> !MarkerAt(s, i)
    ensures SearchFrom(s, from) == Some(at)
    decreases at - from
  {
    if from < at {
      SearchFindsFirst(s, from + 1, at);
    }
  }

  // ===========================================================================
  // Probe signals

  /** What one probe says about the handle; `NoSignal` means inconclusive. */
  datatype Signal = LiveSignal | BannedSignal | NoSignal
  {
    function Status(): Status
    {
      match this
      case LiveSignal => Live
      case BannedSignal => Banned
      case NoSignal => Error
    }
  }

  /** Non-dict values are read as the empty dict (the corrected reading). */
  function Fields(j: Json): map<string, Json>
  {
    if j.Obj? then j.fields else map[]
  }

  // ---------------------------------------------------------------------------
  // Structured-data (API) probe

  /** The `statusCode`/`status` values that mean "no such user". */
  const NotFoundCodes: set<int> := {10000, 10221, 10222, 10223, 10204, 10101}

  predicate IsNotFoundCode(v: Json)
  {
    v.Num? && v.n in NotFoundCodes
  }

  /**
   * The user record of a reply: the first truthy of `userInfo`, `user`,
   * `userData`; its nested `user` when that is a dict, else itself.
   */
  function UserRecord(d: map<string, Json>): Option<map<string, Json>>
  {
    var info := Or(Or(Get(d, "userInfo"), Get(d, "user")), Get(d, "userData"));
    if !info.Obj? then None
    else if Get(info.fields, "user").Obj? then Some(Get(info.fields, "user").fields)
    else Some(info.fields)
  }

  predicate Identified(user: map<string, Json>)
  {
    Truthy(Get(user, "uniqueId")) || Truthy(Get(user, "secUid")) || Truthy(Get(user, "id"))
  }

  predicate HasLiveUser(d: map<string, Json>)
  {
    UserRecord(d).Some? && Identified(UserRecord(d).value)
  }

  predicate HasNotFoundCode(d: map<string, Json>)
  {
    IsNotFoundCode(Get(d, "statusCode")) || IsNotFoundCode(Get(d, "status"))
  }

  /** The verdict of a decoded dict reply: an identified user first, then a not-found code. */
  function ObjectSignal(d: map<string, Json>): (g: Signal)
    ensures g == LiveSignal <==> HasLiveUser(d)
    ensures g == BannedSignal <==> !HasLiveUser(d) && HasNotFoundCode(d)
  {
    if HasLiveUser(d) then LiveSignal
    else if HasNotFoundCode(d) then BannedSignal
    else NoSignal
  }

  /** The API verdict as the source computes it: a truthy non-dict reply raises. */
  function ApiSignalAsWritten(data: Json): Raises<Signal>
  {
    if !Truthy(data) then Returns(NoSignal)
    else if !data.Obj? then Raised("AttributeError")
    else Returns(ObjectSignal(data.fields))
  }

  /** A reply body `[1]` decodes to a non-empty list, and `data.get` raises on it. */
  lemma ApiListReplyRaises()
    ensures ApiSignalAsWritten(Arr([Num(1)])).Raised?
  {
  }

  /** The API verdict with a non-dict reply read as inconclusive. */
  function ApiSignal(data: Json): (g: Signal)
    ensures ApiSignalAsWritten(data).Returns? ==> g == ApiSignalAsWritten(data).value
    ensures !data.Obj? ==> g == NoSignal
    ensures g == LiveSignal ==> data.Obj? && HasLiveUser(data.fields)
    ensures g == BannedSignal ==> data.Obj? && HasNotFoundCode(data.fields)
  {
    if data.Obj? && Truthy(data) then ObjectSignal(data.fields) else NoSignal
  }

  /** An identified user beats any status code: adding a not-found code never turns live into banned. */
  lemma UserBeatsStatusCode(d: map<string, Json>, code: int)
    requires HasLiveUser(d)
    ensures ApiSignal(Obj(d["statusCode" := Num(code)])) == LiveSignal
  {
    var d' := d["statusCode" := Num(code)];
    assert Get(d', "userInfo") == Get(d, "userInfo");
    assert Get(d', "user") == Get(d, "user");
    assert Get(d', "userData") == Get(d, "userData");
    assert UserRecord(d') == UserRecord(d);
    assert "statusCode" in d';
  }

  // ---------------------------------------------------------------------------
  // Embedded-state (SIGI_STATE) probe

  /** The embedded-state verdict as the source computes it; every `.get` on a truthy non-dict raises. */
  function SigiSignalAsWritten(state: Json, name: string): Raises<Signal>
  {
    if !Truthy(state) then Returns(NoSignal)
    else if !state.Obj? then Raised("AttributeError")
    else
      var um := Or(Get(state.fields, "UserModule"), EmptyObj);
      if !um.Obj? then Raised("AttributeError")
      else
        var users := Or(Get(um.fields, "users"), EmptyObj);
        if !users.Obj? then Raised("AttributeError")
        else
          var user := Or(Get(users.fields, name), Get(users.fields, Lower(name)));
          if Truthy(user) && !user.Obj? then Raised("AttributeError")
          else if Truthy(user) && (Truthy(Get(user.fields, "secUid")) || Truthy(Get(user.fields, "id"))) then
            Returns(LiveSignal)
          else
            var unf := Or(Get(um.fields, "userNotFound"), EmptyObj);
            if (unf.Obj? && Truthy(Or(Get(unf.fields, name), Get(unf.fields, Lower(name))))) || unf == Bool(true) then
              Returns(BannedSignal)
            else Returns(NoSignal)
  }

  /** A `UserModule` that is a string makes `um.get("users")` raise. */
  lemma SigiStringModuleRaises(name: string)
    ensures SigiSignalAsWritten(Obj(map["UserModule" := Str("x")]), name).Raised?
  {
    var st := map["UserModule" := Str("x")];
    assert Get(st, "UserModule") == Str("x");
  }

  /** The embedded state's user entry for `name` (exact key first, then lower-cased). */
  function SigiUser(state: Json, name: string): Json
  {
    var users := Fields(Get(Fields(Get(Fields(state), "UserModule")), "users"));
    Or(Get(users, name), Get(users, Lower(name)))
  }

  predicate SigiHasUser(state: Json, name: string)
  {
    var user := SigiUser(state, name);
    Truthy(user) && (Truthy(Get(Fields(user), "secUid")) || Truthy(Get(Fields(user), "id")))
  }

  predicate SigiSaysNotFound(state: Json, name: string)
  {
    var um := Fields(Get(Fields(state), "UserModule"));
    var unf := Or(Get(um, "userNotFound"), EmptyObj);
    (unf.Obj? && Truthy(Or(Get(unf.fields, name), Get(unf.fields, Lower(name))))) || unf == Bool(true)
  }

  /** The embedded-state verdict with every misplaced non-dict read as an empty dict. */
  function SigiSignal(state: Json, name: string): (g: Signal)
    ensures SigiSignalAsWritten(state, name).Returns? ==> g == SigiSignalAsWritten(state, name).value
    ensures g == LiveSignal <==> SigiHasUser(state, name)
    ensures g == BannedSignal <==> !SigiHasUser(state, name) && SigiSaysNotFound(state, name)
  {
    if SigiHasUser(state, name) then LiveSignal
    else if SigiSaysNotFound(state, name) then BannedSignal
    else NoSignal
  }

  // ---------------------------------------------------------------------------
  // HTML profile probe

  /** What the profile-page request produced: a transport exception or a page. */
  datatype Page =
    | PageFailed(exc: string)
      /** `sigi` is the decoded SIGI_STATE block, or `Null` when there is none. */
    | Page(code: int, body: string, sigi: Json)

  datatype HtmlDetails = HtmlDetails(url: string, statusCode: Option<int>, sigiState: Option<bool>, exc: Option<string>)

  datatype HtmlResult = HtmlResult(status: Status, reason: string, details: HtmlDetails)

  const NotFoundPhrases: seq<string> := ["couldn't find this account", "không tìm thấy tài khoản", "user not found"]

  const OgProfile: string := "og:type\" content=\"profile"

  /** Codes that end the HTML probe at once with `error`. */
  predicate Throttled(code: int) { code == 401 || code == 403 || code == 429 }

  /** The free-text markers of a page body, read case-insensitively. */
  function TextVerdict(name: string, code: int, body: string): (r: (Status, string))
    ensures r.0 == Live <==> !ContainsAny(Lower(body), NotFoundPhrases)
                             && Contains(Lower(body), "@" + Lower(name)) && Contains(Lower(body), OgProfile)
    ensures ContainsAny(Lower(body), NotFoundPhrases) ==> r.0 == Banned
    ensures code == 404 ==> r.0 != Error
    ensures code != 404 ==> r.0 != Banned || ContainsAny(Lower(body), NotFoundPhrases)
  {
    var low := Lower(body);
    if ContainsAny(low, NotFoundPhrases) then (Banned, "html_not_found_text")
    else if Contains(low, "@" + Lower(name)) && Contains(low, OgProfile) then (Live, "html_og_profile")
    else if code == 404 then (Banned, "http_404")
    else if code == 200 then (Error, "html_uncertain_200")
    else (Error, "http_" + IntToString(code))
  }

  function ProfileUrl(base: string, name: string): string { base + "/@" + name }

  /** `_check_html_profile` as the source computes it, including the exceptions its SIGI reading can raise. */
  function HtmlProfileAsWritten(base: string, name: string, page: Page): Raises<HtmlResult>
  {
    var url := ProfileUrl(base, name);
    match page
    case PageFailed(exc) => Returns(HtmlResult(Error, "req_exc", HtmlDetails(url, None, None, Some(exc))))
    case Page(code, body, state) =>
      if Throttled(code) then
        Returns(HtmlResult(Error, "http_" + IntToString(code), HtmlDetails(url, Some(code), None, None)))
      else
        var details := HtmlDetails(url, Some(code), Some(Truthy(state)), None);
        match SigiSignalAsWritten(state, name)
        case Raised(e) => Raised(e)
        case Returns(LiveSignal) => Returns(HtmlResult(Live, "sigi_state_user", details))
        case Returns(BannedSignal) => Returns(HtmlResult(Banned, "sigi_state_notfound", details))
        case Returns(NoSignal) =>
          var (s, reason) := TextVerdict(name, code, body);
          Returns(HtmlResult(s, reason, details))
  }

  /**
   * `_check_html_profile` with the corrected embedded-state reading. The
   * ladder: throttling codes, embedded user, embedded not-found, not-found
   * phrase, `@name` with the profile marker, then 404.
   */
  function HtmlProfile(base: string, name: string, page: Page): (r: HtmlResult)
    ensures HtmlProfileAsWritten(base, name, page).Returns? ==> r == HtmlProfileAsWritten(base, name, page).value
    ensures r.details.url == ProfileUrl(base, name)
    ensures page.PageFailed? ==> r.status == Error
    ensures page.Page? && Throttled(page.code) ==> r.status == Error && r.details.sigiState.None?
    ensures r.status == Live ==>
              (&& page.Page? && !Throttled(page.code)
               && (SigiHasUser(page.sigi, name) || Contains(Lower(page.body), OgProfile)))
    ensures r.status == Banned ==>
              (&& page.Page? && !Throttled(page.code)
               && (|| SigiSaysNotFound(page.sigi, name) || page.code == 404
                   || ContainsAny(Lower(page.body), NotFoundPhrases)))
    ensures page.Page? && page.code == 404 ==> r.status != Error
    ensures page.Page? && !Throttled(page.code) && SigiHasUser(page.sigi, name) ==> r.status == Live
    ensures page.Page? && !Throttled(page.code) && !SigiHasUser(page.sigi, name) && SigiSaysNotFound(page.sigi, name) ==>
              r.status == Banned
    ensures page.Page? && !Throttled(page.code) && !SigiHasUser(page.sigi, name) && !SigiSaysNotFound(page.sigi, name) ==>
              r.status == TextVerdict(name, page.code, page.body).0
  {
    var url := ProfileUrl(base, name);
    match page
    case PageFailed(exc) => HtmlResult(Error, "req_exc", HtmlDetails(url, None, None, Some(exc)))
    case Page(code, body, state) =>
      if Throttled(code) then
        HtmlResult(Error, "http_" + IntToString(code), HtmlDetails(url, Some(code), None, None))
      else
        var details := HtmlDetails(url, Some(code), Some(Truthy(state)), None);
        match SigiSignal(state, name)
        case LiveSignal => HtmlResult(Live, "sigi_state_user", details)
        case BannedSignal => HtmlResult(Banned, "sigi_state_notfound", details)
        case NoSignal =>
          var (s, reason) := TextVerdict(name, code, body);
          HtmlResult(s, reason, details)
  }

  /** A throttling code ends the probe with `error` whatever the page holds. */
  lemma ThrottledIgnoresBody(base: string, name: string, code: int, b1: string, b2: string, s1: Json, s2: Json)
    requires Throttled(code)
    ensures HtmlProfile(base, name, Page(code, b1, s1)) == HtmlProfile(base, name, Page(code, b2, s2))
  {
  }

  /** The 404 rung comes last: a 404 page that shows the profile markers is live. */
  lemma NotFoundCodeComesLast(base: string, name: string, body: string)
    requires !ContainsAny(Lower(body), NotFoundPhrases)
    requires Contains(Lower(body), "@" + Lower(name)) && Contains(Lower(body), OgProfile)
    ensures HtmlProfile(base, name, Page(404, body, Null)).status == Live
  {
  }

  // ===========================================================================
  // The single-handle cascade

  datatype ApiReply = ApiReply(data: Json, code: Option<int>, err: Option<string>)

  /** One probe, in cascade order. */
  datatype Target = ApiTarget(url: string) | HtmlTarget(base: string)

  datatype Step =
    | ApiStep(url: string, code: Option<int>, err: Option<string>, hasJson: bool)
    | HtmlStep(base: string, reason: string, details: HtmlDetails)

  datatype Meta = Meta(input: string, username: string, steps: seq<Step>, err: Option<string>)

  datatype Checked = Checked(name: string, status: Status, meta: Meta)

  /** Three JSON endpoints, then the mobile and the desktop profile page. */
  function Targets(u: string): (ts: seq<Target>)
    ensures |ts| == 5
    ensures forall i :: 0 <= i < 3 ==> ts[i].ApiTarget?
    ensures forall i :: 3 <= i < 5 ==> ts[i].HtmlTarget?
  {
    [ ApiTarget("https://m.tiktok.com/api/user/detail/?uniqueId=" + u),
      ApiTarget("https://www.tiktok.com/api/user/detail/?uniqueId=" + u),
      ApiTarget("https://m.tiktok.com/node/share/user/@" + u),
      HtmlTarget("https://m.tiktok.com"),
      HtmlTarget("https://www.tiktok.com") ]
  }

  function SignalOfStatus(s: Status): Signal
  {
    match s
    case Live => LiveSignal
    case Banned => BannedSignal
    case Error => NoSignal
  }

  /** Running one probe: what it says and the trace entry it leaves. */
  function Attempt(t: Target, u: string, api: string -> ApiReply, page: string -> Page): (Signal, Step)
  {
    match t
    case ApiTarget(url) =>
      var reply := api(url);
      (ApiSignal(reply.data), ApiStep(url, reply.code, reply.err, reply.data != Null))
    case HtmlTarget(base) =>
      var res := HtmlProfile(base, u, page(ProfileUrl(base, u)));
      (SignalOfStatus(res.status), HtmlStep(base, res.reason, res.details))
  }

  /** What every probe would say, were all of them run. */
  function SignalsOf(ts: seq<Target>, u: string, api: string -> ApiReply, page: string -> Page): (gs: seq<Signal>)
    ensures |gs| == |ts|
    ensures forall i :: 0 <= i < |ts| ==> gs[i] == Attempt(ts[i], u, api, page).0
  {
    if ts == [] then [] else [Attempt(ts[0], u, api, page).0] + SignalsOf(ts[1..], u, api, page)
  }

  /** The index of the first conclusive signal, or `|gs|` when there is none. */
  function FirstConclusive(gs: seq<Signal>): (k: nat)
    ensures k <= |gs|
    ensures forall i :: 0 <= i < k ==> gs[i] == NoSignal
    ensures k < |gs| ==> gs[k] != NoSignal
  {
    if gs == [] then 0
    else if gs[0] != NoSignal then 0
    else 1 + FirstConclusive(gs[1..])
  }

  /**
   * Run the probes in order and stop at the first conclusive one. The trace
   * has one entry per probe actually run.
   */
  function Cascade(ts: seq<Target>, u: string, api: string -> ApiReply, page: string -> Page): (r: (Signal, seq<Step>))
    ensures var gs := SignalsOf(ts, u, api, page);
            var k := FirstConclusive(gs);
            && r.0 == (if k < |ts| then gs[k] else NoSignal)
            && |r.1| == (if k < |ts| then k + 1 else |ts|)
            && forall i :: 0 <= i < |r.1| ==> r.1[i] == Attempt(ts[i], u, api, page).1
  {
    if ts == [] then (NoSignal, [])
    else
      var (g, step) := Attempt(ts[0], u, api, page);
      if g != NoSignal then (g, [step])
      else
        var (g', rest) := Cascade(ts[1..], u, api, page);
        (g', [step] + rest)
  }

  /**
   * `check_one` as the source computes it: past the empty-input return it
   * opens a session, and the session's web id is drawn from `string.digits`
   * in a module that never imports `string`.
   */
  function CheckOneAsWritten(input: string, api: string -> ApiReply, page: string -> Page): Raises<Checked>
  {
    if Normalize(input) == [] then Returns(Checked(input, Error, Meta(input, [], [], Some("empty"))))
    else Raised("NameError")
  }

  /** `check_one`: the input normalized, then the cascade; an unusable input is `error` with no probe. */
  function CheckOne(input: string, api: string -> ApiReply, page: string -> Page): (r: Checked)
    ensures CheckOneAsWritten(input, api, page).Returns? ==> r == CheckOneAsWritten(input, api, page).value
    ensures Normalize(input) == [] ==> r == Checked(input, Error, Meta(input, [], [], Some("empty")))
    ensures Normalize(input) != [] ==>
              var u := Normalize(input);
              var gs := SignalsOf(Targets(u), u, api, page);
              var k := FirstConclusive(gs);
              && r.name == u
              && r.meta.err.None?
              && r.status == (if k < 5 then gs[k].Status() else Error)
              && |r.meta.steps| == (if k < 5 then k + 1 else 5)
              && forall i :: 0 <= i < |r.meta.steps| ==> r.meta.steps[i] == Attempt(Targets(u)[i], u, api, page).1
  {
    var u := Normalize(input);
    if u == [] then Checked(input, Error, Meta(input, u, [], Some("empty")))
    else
      var (g, steps) := Cascade(Targets(u), u, api, page);
      Checked(u, g.Status(), Meta(input, u, steps, None))
  }

  /** A not-found code from the first endpoint decides `banned` before any page is fetched. */
  lemma ApiNotFoundSkipsHtml(input: string, api: string -> ApiReply, page: string -> Page)
    requires Normalize(input) != []
    requires ApiSignal(api(Targets(Normalize(input))[0].url).data) == BannedSignal
    ensures CheckOne(input, api, page).status == Banned
    ensures |CheckOne(input, api, page).meta.steps| == 1
    ensures CheckOne(input, api, page).meta.steps[0].ApiStep?
  {
    var u := Normalize(input);
    var gs := SignalsOf(Targets(u), u, api, page);
    assert gs[0] == BannedSignal;
    assert FirstConclusive(gs) == 0;
  }

  /** When no probe is conclusive the verdict is `error` after all five probes. */
  lemma AllInconclusiveIsError(input: string, api: string -> ApiReply, page: string -> Page)
    requires Normalize(input) != []
    requires forall t :: t in Targets(Normalize(input)) ==> Attempt(t, Normalize(input), api, page).0 == NoSignal
    ensures CheckOne(input, api, page).status == Error
    ensures |CheckOne(input, api, page).meta.steps| == 5
  {
    var u := Normalize(input);
    var ts := Targets(u);
    var gs := SignalsOf(ts, u, api, page);
    assert forall i :: 0 <= i < 5 ==> ts[i] in ts;
    FirstNoneWhenAllInconclusive(gs);
  }

  lemma {:induction false} FirstNoneWhenAllInconclusive(gs: seq<Signal>)
    requires forall i :: 0 <= i < |gs| ==> gs[i] == NoSignal
    ensures FirstConclusive(gs) == |gs|
  {
    if gs != [] {
      FirstNoneWhenAllInconclusive(gs[1..]);
    }
  }

  /** A handle submitted by the batch comes back under its own name. */
  lemma CheckOneKeepsHandle(u: string, api: string -> ApiReply, page: string -> Page)
    requires IsHandle(u) && u != []
    ensures CheckOne(u, api, page).name == u
  {
    NormalizeIdempotent(u);
    StripHandle(u);
    HandleHasNoMarker(u);
    NormalizeFilters(u);
    FilterKeepsHandles(u);
  }

  // ===========================================================================
  // The batch

  /** `[normalize_username(u) for u in usernames if normalize_username(u)]` */
  function Items(raw: seq<string>): (r: seq<string>)
    ensures forall i :: 0 <= i < |r| ==> r[i] != [] && IsHandle(r[i])
    ensures |r| <= |raw|
  {
    if raw == [] then []
    else (if Normalize(raw[0]) != [] then [Normalize(raw[0])] else []) + Items(raw[1..])
  }

  /** Every input that normalizes to something is among the items. */
  lemma {:induction false} ItemsHasUsable(raw: seq<string>, x: string)
    requires x in raw && Normalize(x) != []
    ensures Normalize(x) in Items(raw)
  {
    if raw[0] != x {
      ItemsHasUsable(raw[1..], x);
    }
  }

  /** Each item is the normalization of some input. */
  lemma {:induction false} ItemsComeFromInputs(raw: seq<string>, y: string)
    requires y in Items(raw)
    ensures exists x :: x in raw && Normalize(x) == y
  {
    if raw != [] && Normalize(raw[0]) != [] && y == Normalize(raw[0]) {
      assert raw[0] in raw;
    } else {
      ItemsComeFromInputs(raw[1..], y);
      var x :| x in raw[1..] && Normalize(x) == y;
      assert x in raw;
    }
  }

  function Outcomes(items: seq<string>, api: string -> ApiReply, page: string -> Page): (r: seq<Checked>)
    ensures |r| == |items|
    ensures forall i :: 0 <= i < |items| ==> r[i] == CheckOne(items[i], api, page)
  {
    if items == [] then [] else [CheckOne(items[0], api, page)] + Outcomes(items[1..], api, page)
  }

  function NamesOf(cs: seq<Checked>): (r: seq<string>)
    ensures |r| == |cs| && forall i :: 0 <= i < |cs| ==> r[i] == cs[i].name
  {
    if cs == [] then [] else [cs[0].name] + NamesOf(cs[1..])
  }

  function StatusesOf(cs: seq<Checked>): (r: seq<Status>)
    ensures |r| == |cs| && forall i :: 0 <= i < |cs| ==> r[i] == cs[i].status
  {
    if cs == [] then [] else [cs[0].status] + StatusesOf(cs[1..])
  }

  /**
   * `check_usernames`, with the pool's completions taken in submission order:
   * each `(u, status)` result is appended to the bucket of its status.
   */
  function CheckUsernames(raw: seq<string>, api: string -> ApiReply, page: string -> Page): (b: Buckets)
    ensures b.All() == multiset(Items(raw))
  {
    var items := Items(raw);
    var cs := Outcomes(items, api, page);
    BatchNamesAreItems(items, api, page);
    Collect(NamesOf(cs), StatusesOf(cs))
  }

  /** The pool's results as the source gathers them: the first exception raised by a call escapes. */
  function OutcomesAsWritten(items: seq<string>, api: string -> ApiReply, page: string -> Page): Raises<seq<Checked>>
  {
    if items == [] then Returns([])
    else match CheckOneAsWritten(items[0], api, page)
      case Raised(e) => Raised(e)
      case Returns(c) =>
        match OutcomesAsWritten(items[1..], api, page)
        case Raised(e) => Raised(e)
        case Returns(cs) => Returns([c] + cs)
  }

  /** `check_usernames` as the source computes it. */
  function CheckUsernamesAsWritten(raw: seq<string>, api: string -> ApiReply, page: string -> Page): Raises<Buckets>
  {
    var items := Items(raw);
    match OutcomesAsWritten(items, api, page)
    case Raised(e) => Raised(e)
    case Returns(cs) => Returns(Collect(NamesOf(cs), StatusesOf(cs)))
  }

  /**
   * As written, a batch with any usable handle raises NameError from its
   * first call, and only a batch with nothing to check returns buckets.
   */
  lemma CheckUsernamesAsWrittenRaises(raw: seq<string>, api: string -> ApiReply, page: string -> Page)
    ensures Items(raw) != [] ==> CheckUsernamesAsWritten(raw, api, page) == Raised("NameError")
    ensures Items(raw) == [] ==> CheckUsernamesAsWritten(raw, api, page) == Returns(CheckUsernames(raw, api, page))
  {
    var items := Items(raw);
    if items != [] {
      assert items[0] in items;
      ItemsComeFromInputs(raw, items[0]);
      var x :| x in raw && Normalize(x) == items[0];
      NormalizeIdempotent(x);
      assert CheckOneAsWritten(items[0], api, page) == Raised("NameError");
    }
  }

  /** Each bucket holds exactly the normalized inputs whose cascade gave that verdict. */
  lemma BatchBuckets(raw: seq<string>, api: string -> ApiReply, page: string -> Page, s: Status)
    ensures CheckUsernames(raw, api, page).Get(s) == Pick(Items(raw), StatusesOf(Outcomes(Items(raw), api, page)), s)
  {
    var items := Items(raw);
    var cs := Outcomes(items, api, page);
    BatchNamesAreItems(items, api, page);
    CollectPicks(items, StatusesOf(cs), s);
  }

  lemma {:induction false} BatchNamesAreItems(items: seq<string>, api: string -> ApiReply, page: string -> Page)
    requires forall i :: 0 <= i < |items| ==> items[i] != [] && IsHandle(items[i])
    ensures NamesOf(Outcomes(items, api, page)) == items
  {
    if items != [] {
      CheckOneKeepsHandle(items[0], api, page);
      BatchNamesAreItems(items[1..], api, page);
      assert Outcomes(items, api, page) == [CheckOne(items[0], api, page)] + Outcomes(items[1..], api, page);
      assert items == [items[0]] + items[1..];
    }
  }

  /** Each normalized input lands in the bucket of its own verdict. */
  lemma BatchPlacesEachItem(raw: seq<string>, api: string -> ApiReply, page: string -> Page, i: nat)
    requires i < |Items(raw)|
    ensures Items(raw)[i] in CheckUsernames(raw, api, page).Get(CheckOne(Items(raw)[i], api, page).status)
  {
    var items := Items(raw);
    var vs := StatusesOf(Outcomes(items, api, page));
    PickHasItem(items, vs, i);
    BatchBuckets(raw, api, page, vs[i]);
  }

  /**
   * Only non-empty handles reach a bucket: in particular the empty result of
   * normalizing an unusable input appears in none.
   */
  lemma BatchDropsUnusable(raw: seq<string>, api: string -> ApiReply, page: string -> Page, x: string)
    requires x == [] || !IsHandle(x)
    ensures x !in CheckUsernames(raw, api, page).All()
  {
  }
}
