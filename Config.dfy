/**
 * The process-wide configuration: the application under test, the hook
 * that logs a user into a test session, and the hook that runs database
 * selects. Each setter overwrites its own slot unconditionally (None
 * included); each getter asserts that its slot is set.
 */
module Config {
  import opened Wrappers
  import opened PyValues
  import opened Outcomes

  /** `setter(test_session, user_id)`: the session as the hook leaves it. */
  type SessionUserSetter = (seq<(string, Value)>, Value) -> seq<(string, Value)>

  /** `db_select(query, params)`: the rows the query returns. */
  type DbSelect = (string, seq<Value>) -> seq<Value>

  /** The three module globals `_APP`, `_SESSION_USER_SETTER` and `_DB_SELECT`. */
  class Registry<App> {
    var app: Option<App>
    var sessionUserSetter: Option<SessionUserSetter>
    var dbSelect: Option<DbSelect>

    /** At import time every slot is None, so every getter fails. */
    constructor ()
      ensures app.None? && sessionUserSetter.None? && dbSelect.None?
      ensures GetApp().Err? && GetSessionUserSetter().Err? && GetDbSelectHook().Err?
    {
      app, sessionUserSetter, dbSelect := None, None, None;
    }

    /** `get_app`. */
    function GetApp(): (r: Result<App, Exception>)
      reads this
      ensures r.Ok? <==> app.Some?
      ensures r.Ok? ==> r.value == app.value
      ensures r.Err? ==> r.error == NotConfigured(AppSlot)
    {
      match app
      case Some(a) => Ok(a)
      case None => Err(NotConfigured(AppSlot))
    }

    /** `get_session_user_setter`. */
    function GetSessionUserSetter(): (r: Result<SessionUserSetter, Exception>)
      reads this
      ensures r.Ok? <==> sessionUserSetter.Some?
      ensures r.Ok? ==> r.value == sessionUserSetter.value
      ensures r.Err? ==> r.error == NotConfigured(SessionUserSetterSlot)
    {
      match sessionUserSetter
      case Some(s) => Ok(s)
      case None => Err(NotConfigured(SessionUserSetterSlot))
    }

    /** `get_db_select_hook`. */
    function GetDbSelectHook(): (r: Result<DbSelect, Exception>)
      reads this
      ensures r.Ok? <==> dbSelect.Some?
      ensures r.Ok? ==> r.value == dbSelect.value
      ensures r.Err? ==> r.error == NotConfigured(DbSelectSlot)
    {
      match dbSelect
      case Some(d) => Ok(d)
      case None => Err(NotConfigured(DbSelectSlot))
    }

    /** `set_app(a)`; `None` stands for `set_app(None)`. */
    method SetApp(a: Option<App>)
      modifies this
      ensures app == a
      ensures sessionUserSetter == old(sessionUserSetter) && dbSelect == old(dbSelect)
      ensures GetApp() == if a.Some? then Ok(a.value) else Err(NotConfigured(AppSlot))
    {
      app := a;
    }

    /** `set_session_user_setter(s)`. */
    method SetSessionUserSetter(s: Option<SessionUserSetter>)
      modifies this
      ensures sessionUserSetter == s
      ensures app == old(app) && dbSelect == old(dbSelect)
      ensures GetSessionUserSetter() == if s.Some? then Ok(s.value) else Err(NotConfigured(SessionUserSetterSlot))
    {
      sessionUserSetter := s;
    }

    /** `set_db_select_hook(d)`. */
    method SetDbSelectHook(d: Option<DbSelect>)
      modifies this
      ensures dbSelect == d
      ensures app == old(app) && sessionUserSetter == old(sessionUserSetter)
      ensures GetDbSelectHook() == if d.Some? then Ok(d.value) else Err(NotConfigured(DbSelectSlot))
    {
      dbSelect := d;
    }
  }

  /**
   * The sequence of `tests/test_hooks.py`: clearing the app makes its
   * getter fail again, setting it afterwards makes it succeed, and the
   * other slots are never touched.
   */
  method AppHookScenario<App>(app: App)
  {
    var reg := new Registry<App>();
    reg.SetApp(None);
    assert reg.GetApp().Err?;
    reg.SetApp(Some(app));
    assert reg.GetApp() == Ok(app);
    assert reg.GetDbSelectHook().Err? && reg.GetSessionUserSetter().Err?;
    reg.SetApp(None);
    assert reg.GetApp() == Err(NotConfigured(AppSlot));
  }
}
