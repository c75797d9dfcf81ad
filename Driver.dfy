/**
 * `run_view` around an abstract request, and `set_session_user_id`.
 * The test client, the session transaction and the request itself are
 * one parameter, `serve`, taking the application and the prepared
 * session and returning what the request leaves behind.
 */
module Driver {
  import opened Wrappers
  import opened PyValues
  import opened Outcomes
  import opened Vocabulary
  import opened SearchList
  import opened RequestGlobals
  import opened Expectations
  import opened Config
  import opened Evaluator

  type Items = seq<(string, Value)>

  /**
   * `set_session_user_id(test_session, user_id)`: the session as the
   * registered setter leaves it. The setter is fetched only when a user
   * id is given, so without one the registry is never consulted.
   */
  function SessionWithUser<App>(reg: Registry<App>, session: Items, userId: Value): (r: Result<Items, Exception>)
    reads reg
    ensures userId == Null ==> r == Ok(session)
    ensures userId != Null ==> (r.Err? <==> reg.sessionUserSetter.None?)
    ensures r.Err? ==> r.error == NotConfigured(SessionUserSetterSlot)
    ensures userId != Null && r.Ok? ==> r.value == reg.sessionUserSetter.value(session, userId)
  {
    if userId == Null then Ok(session)
    else
      match reg.GetSessionUserSetter()
      case Err(e) => Err(e)
      case Ok(setter) => Ok(setter(session, userId))
  }

  /** The test session before the request: the user set up, then `session` merged over it. */
  function TestSession<App>(reg: Registry<App>, session: Option<Items>, userId: Value): Result<Items, Exception>
    reads reg
  {
    match SessionWithUser(reg, [], userId)
    case Err(e) => Err(e)
    case Ok(s) => Ok(if session.Some? then Update(s, session.value) else s)
  }

  /**
   * `run_view(path, session=..., user_id=..., **expects)`. `requested`
   * tells whether the request was made. Returns the captured state when
   * every expectation holds, otherwise how the run ended.
   */
  method RunView<App>(reg: Registry<App>, session: Option<Items>, userId: Value, ex: Expects,
                      serve: (App, Items) -> Captured, lib: Library)
    returns (r: Result<Captured, Outcome>, requested: bool)
    ensures CheckExpectNames(Keys(ex)) != Pass ==> r == Err(CheckExpectNames(Keys(ex))) && !requested
    ensures CheckExpectNames(Keys(ex)) == Pass && reg.app.None? ==> r == Err(Raise(NotConfigured(AppSlot)))
    ensures CheckExpectNames(Keys(ex)) == Pass && reg.app.Some? && TestSession(reg, session, userId).Err? ==>
            r == Err(Raise(TestSession(reg, session, userId).error))
    ensures requested <==>
            CheckExpectNames(Keys(ex)) == Pass && reg.app.Some? && TestSession(reg, session, userId).Ok?
    ensures requested ==>
              var c := serve(reg.app.value, TestSession(reg, session, userId).value);
              r == if TemplateData(c.globals).Err? then Err(Raise(TemplateData(c.globals).error))
                   else if Evaluate(ex, c, reg.dbSelect, lib) != Pass then Err(Evaluate(ex, c, reg.dbSelect, lib))
                   else Ok(c)
    ensures r.Ok? ==> requested && Evaluate(ex, r.value, reg.dbSelect, lib) == Pass
  {
    var names := CheckExpectNames(Keys(ex));
    if names != Pass {
      return Err(names), false;
    }
    var app := reg.GetApp();
    if app.Err? {
      return Err(Raise(app.error)), false;
    }
    var prepared := SessionWithUser(reg, [], userId);
    if prepared.Err? {
      return Err(Raise(prepared.error)), false;
    }
    var testSession := prepared.value;
    if session.Some? {
      testSession := Update(testSession, session.value);
    }
    var captured := serve(app.value, testSession);
    requested := true;
    var tmplData := Flatten(captured.globals.tmplData.GetOr(Null));
    if tmplData.Err? {
      return Err(Raise(tmplData.error)), true;
    }
    var outcome := CheckExpects(ex, captured, reg.dbSelect, lib);
    if outcome != Pass {
      return Err(outcome), true;
    }
    return Ok(captured), true;
  }

  /**
   * The sequence of `tests/test_hooks.py`: a user id without a session
   * setter fails before any request; once a setter is registered the
   * same call makes the request; without a user id no setter is needed.
   */
  method SessionHookScenario<App>(app: App, setter: SessionUserSetter, serve: (App, Items) -> Captured, lib: Library) {
    var reg := new Registry<App>();
    reg.SetApp(Some(app));
    var r, requested := RunView(reg, None, Int(1), [], serve, lib);
    assert !requested && r == Err(Raise(NotConfigured(SessionUserSetterSlot)));
    r, requested := RunView(reg, None, Null, [], serve, lib);
    assert requested;
    reg.SetSessionUserSetter(Some(setter));
    r, requested := RunView(reg, None, Int(1), [], serve, lib);
    assert requested;
  }

  /** A misspelt expectation is refused before the application is even looked up. */
  method BadKeyScenario<App>(serve: (App, Items) -> Captured, lib: Library) {
    var reg := new Registry<App>();
    var r, requested := RunView(reg, None, Null, [("expect_tmpl_dta", Opaque)], serve, lib);
    assert !requested && r.Err? && r.error.Raise?;
  }
}
