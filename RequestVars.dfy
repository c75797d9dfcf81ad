/**
 * `_check_request_var_expects`: the template name, the redirect target,
 * and the contains / has / lacks tables over the template data, the
 * session, the cookies, the response headers and the site data.
 * Checks run in source order; the first failure ends the evaluation.
 */
module RequestVars {
  import opened Wrappers
  import opened PyValues
  import opened Outcomes
  import opened Vocabulary
  import opened Matcher
  import opened DottedPath
  import opened SearchList
  import opened RequestGlobals
  import opened Expectations

  /** Response headers in order; a name may occur more than once. */
  type Headers = seq<(string, string)>

  /** `urlunsplit((None, None) + urlsplit(url)[2:])`: what lies right of the host. */
  type UrlPath = string -> string

  /** werkzeug's `parse_cookie` on one `Set-Cookie` header: its name/value pairs. */
  type CookieParser = string -> seq<(string, string)>

  // ---------------------------------------------------------------------
  // Headers

  /** `headers.getlist(name)`: every value given under `name`, in order. */
  function HeaderList(h: Headers, name: string): (vs: seq<string>)
    ensures vs == [] <==> forall i :: 0 <= i < |h| ==> h[i].0 != name
    ensures forall v :: v in vs ==> (name, v) in h
  {
    if h == [] then []
    else
      var rest := HeaderList(h[1..], name);
      assert forall i :: 1 <= i < |h| ==> h[i] == h[1..][i - 1];
      (if h[0].0 == name then [h[0].1] else []) + rest
  }

  /** `headers.get(name, None)`: the first value given under `name`. */
  function HeaderGet(h: Headers, name: string): (r: Option<string>)
    ensures r.None? <==> HeaderList(h, name) == []
    ensures r.Some? ==> r.value == HeaderList(h, name)[0]
  {
    if h == [] then None
    else if h[0].0 == name then Some(h[0].1)
    else HeaderGet(h[1..], name)
  }

  /** String pairs as a dict of Python strings. */
  function StrItems(ps: seq<(string, string)>): (r: seq<(string, Value)>)
    ensures |r| == |ps|
    ensures forall i :: 0 <= i < |ps| ==> r[i] == (ps[i].0, Str(ps[i].1))
  {
    if ps == [] then [] else [(ps[0].0, Str(ps[0].1))] + StrItems(ps[1..])
  }

  /** The response headers as the mapping `expect_header_data` is checked against. */
  function HeadersValue(h: Headers): Value {
    Dict(StrItems(h))
  }

  // ---------------------------------------------------------------------
  // Redirect target

  /** `_extract_path(url)`: a falsy URL (None or "") comes back unchanged. */
  function ExtractPath(url: Option<string>, urlPath: UrlPath): (r: Value)
    ensures url.None? ==> r == Null
    ensures url == Some("") ==> r == Str("")
    ensures url.Some? && url.value != "" ==> r == Str(urlPath(url.value))
  {
    match url
    case None => Null
    case Some(u) => if u == "" then Str("") else Str(urlPath(u))
  }

  /** `_extract_path(response.headers.get('Location', None))`. */
  function RedirectUrl(h: Headers, urlPath: UrlPath): Value {
    ExtractPath(HeaderGet(h, "Location"), urlPath)
  }

  /** The `expect_redir` equality. */
  function CheckRedir(exp: Option<Arg>, url: Value): Outcome {
    match exp
    case None => Pass
    case Some(Scalar(v)) => if url == v then Pass else Fail(RedirMismatch(v, url))
    case Some(_) => Raise(BadArgument("expect_redir"))
  }

  predicate RedirHolds(exp: Option<Arg>, url: Value) {
    match exp
    case None => true
    case Some(Scalar(v)) => v == url
    case Some(_) => false
  }

  /**
   * Without a `Location` header the redirect target is None, so
   * `expect_redir=""` fails; an empty `Location` header satisfies it.
   */
  lemma RedirAbsentIsNotEmpty(h: Headers, urlPath: UrlPath)
    ensures HeaderList(h, "Location") == [] ==>
            CheckRedir(Some(Scalar(Str(""))), RedirectUrl(h, urlPath)) == Fail(RedirMismatch(Str(""), Null))
    ensures HeaderGet(h, "Location") == Some("") ==>
            CheckRedir(Some(Scalar(Str(""))), RedirectUrl(h, urlPath)) == Pass
  {
  }

  // ---------------------------------------------------------------------
  // Template name

  /** The `expect_tmpl` check: only a truthy expected name is checked. */
  function CheckTmpl(exp: Option<Arg>, g: Globals): Outcome {
    match exp
    case None => Pass
    case Some(Scalar(v)) =>
      if !Truthy(v) then Pass
      else
        var t := TemplateName(g);
        if !Truthy(t) then Fail(TemplateNotCalled)
        else if v != t then Fail(TemplateMismatch(v, t))
        else Pass
    case Some(_) => Raise(BadArgument("expect_tmpl"))
  }

  predicate TmplHolds(exp: Option<Arg>, g: Globals) {
    match exp
    case None => true
    case Some(Scalar(v)) => !Truthy(v) || TemplateName(g) == v
    case Some(_) => false
  }

  /**
   * `expect_tmpl` passes iff it is falsy or names the recorded template;
   * when no template was recorded a truthy name fails as not called.
   */
  lemma TmplIff(v: Value, g: Globals)
    ensures CheckTmpl(Some(Scalar(v)), g) == Pass <==> TmplHolds(Some(Scalar(v)), g)
    ensures Truthy(v) && g.tmplCalled.None? ==> CheckTmpl(Some(Scalar(v)), g) == Fail(TemplateNotCalled)
  {
  }

  // ---------------------------------------------------------------------
  // Cookies

  /**
   * `_get_cookies` as written: the `return` sits inside the loop, so only
   * the first `Set-Cookie` header is parsed, and without one the
   * function falls off its end and yields None.
   */
  function Cookies(h: Headers, parse: CookieParser): Value {
    var cs := HeaderList(h, "Set-Cookie");
    if cs == [] then Null else Dict(Update([], StrItems(parse(cs[0]))))
  }

  method GetCookies(h: Headers, parse: CookieParser) returns (r: Value)
    ensures r == Cookies(h, parse)
  {
    var result: seq<(string, Value)> := [];
    var cookieStrs := HeaderList(h, "Set-Cookie");
    for i := 0 to |cookieStrs|
      invariant i == 0
    {
      var cookie := StrItems(parse(cookieStrs[i]));
      result := Update(result, cookie);
      return Dict(result);
    }
    return Null;
  }

  /** Without a `Set-Cookie` header any `expect_cookie_data` key fails as a missing attribute. */
  lemma CookiesWithoutHeader(h: Headers, parse: CookieParser, where: string, key: string, expected: Value)
    requires forall i :: 0 <= i < |h| ==> h[i].0 != "Set-Cookie"
    ensures Cookies(h, parse) == Null
    ensures CheckContains(where, key, expected, Cookies(h, parse)) == Fail(MissingAttr(where, key))
  {
  }

  /**
   * A cookie the first `Set-Cookie` header does not set is missing,
   * whatever the later headers set.
   */
  lemma LaterCookieHeadersIgnored(h: Headers, parse: CookieParser, where: string, key: string, expected: Value)
    requires HeaderList(h, "Set-Cookie") != []
    requires forall i :: 0 <= i < |parse(HeaderList(h, "Set-Cookie")[0])| ==>
               parse(HeaderList(h, "Set-Cookie")[0])[i].0 != key
    ensures CheckContains(where, key, expected, Cookies(h, parse)) == Fail(MissingKey(where, key))
  {
    var items := StrItems(parse(HeaderList(h, "Set-Cookie")[0]));
    UpdateHasKey([], items, key);
  }

  // ---------------------------------------------------------------------
  // The tables

  /** One expectation to run: its keyword, the payload given (if any), the actual value. */
  type Entry = (string, Option<Arg>, Value)

  function At(ex: Expects, name: string, actual: Value): Entry {
    (name, Find(ex, name), actual)
  }

  /** `for key, exp_val in expects[name].items(): _check_contains(_show(name), key, exp_val, actual)`. */
  function ContainsCheck(t: Entry): Outcome {
    match t.1
    case None => Pass
    case Some(Table(es)) => CheckItems(Show(t.0), es, t.2)
    case Some(_) => Raise(BadArgument(t.0))
  }

  function CheckContainsTables(ts: seq<Entry>): Outcome {
    if ts == [] then Pass else ContainsCheck(ts[0]).Then(CheckContainsTables(ts[1..]))
  }

  predicate ContainsEntryHolds(t: Entry) {
    match t.1
    case None => true
    case Some(Table(es)) => forall j :: 0 <= j < |es| ==> Contains(t.2, es[j].0, es[j].1)
    case Some(_) => false
  }

  predicate AllContainsHold(ts: seq<Entry>) {
    forall i :: 0 <= i < |ts| ==> ContainsEntryHolds(ts[i])
  }

  /** `for exp_key in expects[name]: _check_has(actual, exp_key, name)`. */
  function CheckHasKeys(actual: Value, ks: seq<string>, name: string): Outcome {
    if ks == [] then Pass else HasVerdict(actual, ks[0], name).Then(CheckHasKeys(actual, ks[1..], name))
  }

  function HasCheck(t: Entry): Outcome {
    match t.1
    case None => Pass
    case Some(Names(ks)) => CheckHasKeys(t.2, ks, t.0)
    case Some(_) => Raise(BadArgument(t.0))
  }

  function CheckHasTables(ts: seq<Entry>): Outcome {
    if ts == [] then Pass else HasCheck(ts[0]).Then(CheckHasTables(ts[1..]))
  }

  predicate HasEntryHolds(t: Entry) {
    match t.1
    case None => true
    case Some(Names(ks)) => forall j :: 0 <= j < |ks| ==> AllPresent(t.2, Split(ks[j]))
    case Some(_) => false
  }

  predicate AllHasHold(ts: seq<Entry>) {
    forall i :: 0 <= i < |ts| ==> HasEntryHolds(ts[i])
  }

  /** `ok_(not key in actual, ...)`; `in` on a value without `__contains__` raises. */
  function LacksVerdict(actual: Value, key: string, name: string): Outcome {
    if !HasContains(actual) then Raise(TypeError)
    else if In(key, actual) then Fail(UnexpectedKey(key, Show(name)))
    else Pass
  }

  function CheckLacksKeys(actual: Value, ks: seq<string>, name: string): Outcome {
    if ks == [] then Pass else LacksVerdict(actual, ks[0], name).Then(CheckLacksKeys(actual, ks[1..], name))
  }

  function LacksCheck(t: Entry): Outcome {
    match t.1
    case None => Pass
    case Some(Names(ks)) => CheckLacksKeys(t.2, ks, t.0)
    case Some(_) => Raise(BadArgument(t.0))
  }

  function CheckLacksTables(ts: seq<Entry>): Outcome {
    if ts == [] then Pass else LacksCheck(ts[0]).Then(CheckLacksTables(ts[1..]))
  }

  predicate Absent(actual: Value, key: string) {
    HasContains(actual) && !In(key, actual)
  }

  predicate LacksEntryHolds(t: Entry) {
    match t.1
    case None => true
    case Some(Names(ks)) => forall j :: 0 <= j < |ks| ==> Absent(t.2, ks[j])
    case Some(_) => false
  }

  predicate AllLacksHold(ts: seq<Entry>) {
    forall i :: 0 <= i < |ts| ==> LacksEntryHolds(ts[i])
  }

  /** The contains table, in source order. */
  function ContainsEntries(ex: Expects, tmplData: Value, session: Value, cookies: Value, headers: Value, siteData: Value): seq<Entry> {
    [At(ex, "expect_tmpl_data", tmplData), At(ex, "expect_session_data", session),
     At(ex, "expect_cookie_data", cookies), At(ex, "expect_header_data", headers),
     At(ex, "expect_site_data", siteData)]
  }

  /** The has table, in source order. */
  function HasEntries(ex: Expects, tmplData: Value, session: Value, siteData: Value): seq<Entry> {
    [At(ex, "expect_tmpl_has", tmplData), At(ex, "expect_session_has", session), At(ex, "expect_site_has", siteData)]
  }

  /** The lacks table, in source order. */
  function LacksEntries(ex: Expects, tmplData: Value, session: Value, siteData: Value): seq<Entry> {
    [At(ex, "expect_tmpl_lacks", tmplData), At(ex, "expect_session_lacks", session), At(ex, "expect_site_lacks", siteData)]
  }

  /**
   * The three tables. Building the contains table flattens the template
   * and site data, so an unflattenable one raises before any table runs.
   */
  function CheckTables(ex: Expects, h: Headers, session: Value, g: Globals, parse: CookieParser): Outcome {
    match TemplateData(g)
    case Err(e) => Raise(e)
    case Ok(td) =>
      match SiteData(g)
      case Err(e) => Raise(e)
      case Ok(sd) =>
        CheckContainsTables(ContainsEntries(ex, td, session, Cookies(h, parse), HeadersValue(h), sd))
          .Then(CheckHasTables(HasEntries(ex, td, session, sd)))
          .Then(CheckLacksTables(LacksEntries(ex, td, session, sd)))
  }

  /** `_check_request_var_expects(expects, response, session)`. */
  function CheckRequestVars(ex: Expects, h: Headers, session: Value, g: Globals, urlPath: UrlPath, parse: CookieParser): Outcome {
    CheckTmpl(Find(ex, "expect_tmpl"), g)
      .Then(CheckRedir(Find(ex, "expect_redir"), RedirectUrl(h, urlPath)))
      .Then(CheckTables(ex, h, session, g, parse))
  }

  /** Every request-variable expectation given holds. */
  predicate RequestVarsHold(ex: Expects, h: Headers, session: Value, g: Globals, urlPath: UrlPath, parse: CookieParser) {
    TmplHolds(Find(ex, "expect_tmpl"), g) &&
    RedirHolds(Find(ex, "expect_redir"), RedirectUrl(h, urlPath)) &&
    TemplateData(g).Ok? && SiteData(g).Ok? &&
    var td := TemplateData(g).value;
    var sd := SiteData(g).value;
    AllContainsHold(ContainsEntries(ex, td, session, Cookies(h, parse), HeadersValue(h), sd)) &&
    AllHasHold(HasEntries(ex, td, session, sd)) &&
    AllLacksHold(LacksEntries(ex, td, session, sd))
  }

  // ---------------------------------------------------------------------
  // The checks pass exactly when the expectations hold

  lemma {:induction false} ContainsTablesIff(ts: seq<Entry>)
    ensures CheckContainsTables(ts) == Pass <==> AllContainsHold(ts)
  {
    if ts != [] {
      if ts[0].1.Some? && ts[0].1.value.Table? {
        CheckItemsSound(Show(ts[0].0), ts[0].1.value.entries, ts[0].2);
      }
      ContainsTablesIff(ts[1..]);
      assert forall i :: 1 <= i < |ts| ==> ts[i] == ts[1..][i - 1];
    }
  }

  lemma {:induction false} HasKeysIff(actual: Value, ks: seq<string>, name: string)
    ensures CheckHasKeys(actual, ks, name) == Pass <==> forall j :: 0 <= j < |ks| ==> AllPresent(actual, Split(ks[j]))
  {
    if ks != [] {
      HasIffAllPresent(actual, ks[0], name);
      HasKeysIff(actual, ks[1..], name);
      assert forall j :: 1 <= j < |ks| ==> ks[j] == ks[1..][j - 1];
    }
  }

  lemma {:induction false} HasTablesIff(ts: seq<Entry>)
    ensures CheckHasTables(ts) == Pass <==> AllHasHold(ts)
  {
    if ts != [] {
      if ts[0].1.Some? && ts[0].1.value.Names? {
        HasKeysIff(ts[0].2, ts[0].1.value.names, ts[0].0);
      }
      HasTablesIff(ts[1..]);
      assert forall i :: 1 <= i < |ts| ==> ts[i] == ts[1..][i - 1];
    }
  }

  lemma {:induction false} LacksKeysIff(actual: Value, ks: seq<string>, name: string)
    ensures CheckLacksKeys(actual, ks, name) == Pass <==> forall j :: 0 <= j < |ks| ==> Absent(actual, ks[j])
  {
    if ks != [] {
      LacksKeysIff(actual, ks[1..], name);
      assert forall j :: 1 <= j < |ks| ==> ks[j] == ks[1..][j - 1];
    }
  }

  lemma {:induction false} LacksTablesIff(ts: seq<Entry>)
    ensures CheckLacksTables(ts) == Pass <==> AllLacksHold(ts)
  {
    if ts != [] {
      if ts[0].1.Some? && ts[0].1.value.Names? {
        LacksKeysIff(ts[0].2, ts[0].1.value.names, ts[0].0);
      }
      LacksTablesIff(ts[1..]);
      assert forall i :: 1 <= i < |ts| ==> ts[i] == ts[1..][i - 1];
    }
  }

  /** `_check_request_var_expects` passes iff every expectation it covers holds. */
  lemma RequestVarsIff(ex: Expects, h: Headers, session: Value, g: Globals, urlPath: UrlPath, parse: CookieParser)
    ensures CheckRequestVars(ex, h, session, g, urlPath, parse) == Pass <==> RequestVarsHold(ex, h, session, g, urlPath, parse)
  {
    if TemplateData(g).Ok? && SiteData(g).Ok? {
      var td := TemplateData(g).value;
      var sd := SiteData(g).value;
      ContainsTablesIff(ContainsEntries(ex, td, session, Cookies(h, parse), HeadersValue(h), sd));
      HasTablesIff(HasEntries(ex, td, session, sd));
      LacksTablesIff(LacksEntries(ex, td, session, sd));
    }
  }
}
