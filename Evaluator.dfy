/**
 * `_check_expects`: the request-variable checks, then the database
 * checks, then the flash checks, over the state one request leaves
 * behind. The first failing check ends the evaluation.
 */
module Evaluator {
  import opened Wrappers
  import opened PyValues
  import opened Outcomes
  import opened RequestGlobals
  import opened Expectations
  import opened Config
  import opened RequestVars
  import opened DbChecks
  import opened Flashes

  /** The library calls the checks make, as parameters. */
  datatype Library = Library(urlPath: UrlPath, parseCookie: CookieParser, search: Search)

  /**
   * What a request leaves behind: the response headers, the session
   * after the request (`flask.session`), the request globals, and the
   * flashed `(category, message)` pairs.
   */
  datatype Captured = Captured(headers: Headers, session: Value, globals: Globals, flashes: seq<(string, string)>)

  /** What `_check_expects` ends with, for the checks modelled. */
  function Evaluate(ex: Expects, c: Captured, dbHook: Option<DbSelect>, lib: Library): Outcome {
    CheckRequestVars(ex, c.headers, c.session, c.globals, lib.urlPath, lib.parseCookie)
      .Then(DbVerdict(Find(ex, "expect_db_has"), Find(ex, "expect_db_lacks"), dbHook))
      .Then(FlashesVerdict(Find(ex, "expect_flashes_has"), Find(ex, "expect_flashes_lacks"), c.flashes, lib.search))
  }

  /** Every expectation given holds. */
  predicate AllHold(ex: Expects, c: Captured, dbHook: Option<DbSelect>, lib: Library) {
    RequestVarsHold(ex, c.headers, c.session, c.globals, lib.urlPath, lib.parseCookie) &&
    DbHold(Find(ex, "expect_db_has"), Find(ex, "expect_db_lacks"), dbHook) &&
    FlashesHold(Find(ex, "expect_flashes_has"), Find(ex, "expect_flashes_lacks"), c.flashes, lib.search)
  }

  method CheckExpects(ex: Expects, c: Captured, dbHook: Option<DbSelect>, lib: Library) returns (r: Outcome)
    ensures r == Evaluate(ex, c, dbHook, lib)
  {
    r := CheckRequestVars(ex, c.headers, c.session, c.globals, lib.urlPath, lib.parseCookie);
    if r != Pass {
      return r;
    }
    r := CheckDb(Find(ex, "expect_db_has"), Find(ex, "expect_db_lacks"), dbHook);
    if r != Pass {
      return r;
    }
    r := CheckFlashes(Find(ex, "expect_flashes_has"), Find(ex, "expect_flashes_lacks"), c.flashes, lib.search);
  }

  /** The evaluation passes iff every expectation it covers holds. */
  lemma EvaluateIff(ex: Expects, c: Captured, dbHook: Option<DbSelect>, lib: Library)
    ensures Evaluate(ex, c, dbHook, lib) == Pass <==> AllHold(ex, c, dbHook, lib)
  {
    RequestVarsIff(ex, c.headers, c.session, c.globals, lib.urlPath, lib.parseCookie);
    DbVerdictIff(Find(ex, "expect_db_has"), Find(ex, "expect_db_lacks"), dbHook);
    FlashesVerdictIff(Find(ex, "expect_flashes_has"), Find(ex, "expect_flashes_lacks"), c.flashes, lib.search);
  }

  /** Only the `perms` keywords have a `p` right after the `expect_` prefix. */
  lemma GetIgnoresPerms(ex: Expects, which: string, a: Arg, name: string)
    requires which == "expect_perms_has" || which == "expect_perms_lacks"
    requires |name| > 7 && name[7] != 'p'
    ensures Find(ex + [(which, a)], name) == Find(ex, name)
  {
    assert which[7] == 'p';
    FindAppendOther(ex, [(which, a)], name);
  }

  lemma TablesIgnorePerms(ex: Expects, which: string, a: Arg, h: Headers, session: Value, g: Globals, parse: CookieParser)
    requires which == "expect_perms_has" || which == "expect_perms_lacks"
    ensures CheckTables(ex + [(which, a)], h, session, g, parse) == CheckTables(ex, h, session, g, parse)
  {
    var ex' := ex + [(which, a)];
    GetIgnoresPerms(ex, which, a, "expect_tmpl_data");
    GetIgnoresPerms(ex, which, a, "expect_session_data");
    GetIgnoresPerms(ex, which, a, "expect_cookie_data");
    GetIgnoresPerms(ex, which, a, "expect_header_data");
    GetIgnoresPerms(ex, which, a, "expect_site_data");
    GetIgnoresPerms(ex, which, a, "expect_tmpl_has");
    GetIgnoresPerms(ex, which, a, "expect_session_has");
    GetIgnoresPerms(ex, which, a, "expect_site_has");
    GetIgnoresPerms(ex, which, a, "expect_tmpl_lacks");
    GetIgnoresPerms(ex, which, a, "expect_session_lacks");
    GetIgnoresPerms(ex, which, a, "expect_site_lacks");
    if TemplateData(g).Ok? && SiteData(g).Ok? {
      var td, sd := TemplateData(g).value, SiteData(g).value;
      var cookies, hv := Cookies(h, parse), HeadersValue(h);
      assert ContainsEntries(ex', td, session, cookies, hv, sd) == ContainsEntries(ex, td, session, cookies, hv, sd);
      assert HasEntries(ex', td, session, sd) == HasEntries(ex, td, session, sd);
      assert LacksEntries(ex', td, session, sd) == LacksEntries(ex, td, session, sd);
    }
  }

  /** `expect_perms_has` and `expect_perms_lacks` are accepted but never checked. */
  lemma PermsNeverChecked(ex: Expects, which: string, a: Arg, c: Captured, dbHook: Option<DbSelect>, lib: Library)
    requires which == "expect_perms_has" || which == "expect_perms_lacks"
    ensures Evaluate(ex + [(which, a)], c, dbHook, lib) == Evaluate(ex, c, dbHook, lib)
  {
    var ex' := ex + [(which, a)];
    GetIgnoresPerms(ex, which, a, "expect_tmpl");
    GetIgnoresPerms(ex, which, a, "expect_redir");
    GetIgnoresPerms(ex, which, a, "expect_db_has");
    GetIgnoresPerms(ex, which, a, "expect_db_lacks");
    GetIgnoresPerms(ex, which, a, "expect_flashes_has");
    GetIgnoresPerms(ex, which, a, "expect_flashes_lacks");
    TablesIgnorePerms(ex, which, a, c.headers, c.session, c.globals, lib.parseCookie);
    assert CheckRequestVars(ex', c.headers, c.session, c.globals, lib.urlPath, lib.parseCookie) ==
           CheckRequestVars(ex, c.headers, c.session, c.globals, lib.urlPath, lib.parseCookie);
  }
}
