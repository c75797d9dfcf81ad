/**
 * The request-scoped globals (`flask.g`) viewunit writes through
 * `template_called` and reads back after the request: the first
 * template's name and data, and the site data the application stores.
 */
module RequestGlobals {
  import opened Wrappers
  import opened PyValues
  import opened Outcomes
  import opened SearchList

  /** The attributes of `flask.g` viewunit reads; `None` where never set. */
  datatype Globals = Globals(tmplCalled: Option<Value>, tmplData: Option<Value>, site: Option<Value>)

  /** `_get_tmpl_called`: `getattr(flask.g, 'test_tmpl_called', None)`. */
  function TemplateName(g: Globals): Value {
    g.tmplCalled.GetOr(Null)
  }

  /** `_get_tmpl_data`: the template data, flattened. */
  function TemplateData(g: Globals): Result<Value, Exception> {
    Flattened(g.tmplData.GetOr(Null))
  }

  /** `_get_site_data`: the site data, flattened the same way. */
  function SiteData(g: Globals): Result<Value, Exception> {
    Flattened(g.site.GetOr(Null))
  }

  /** The globals after `template_called(name, data)`: only the first call records. */
  function Recorded(g: Globals, name: Value, data: Value): (r: Globals)
    ensures r.site == g.site
    ensures g.tmplCalled.None? ==> r.tmplCalled == Some(name) && r.tmplData == Some(data)
    ensures g.tmplCalled.Some? ==> r == g
  {
    if g.tmplCalled.None? then Globals(Some(name), Some(data), g.site) else g
  }

  /** Once a template is recorded, later calls in the same request change nothing. */
  lemma FirstTemplateWins(g: Globals, n1: Value, d1: Value, n2: Value, d2: Value)
    requires g.tmplCalled.None?
    ensures Recorded(Recorded(g, n1, d1), n2, d2) == Recorded(g, n1, d1)
    ensures TemplateName(Recorded(Recorded(g, n1, d1), n2, d2)) == n1
    ensures TemplateData(Recorded(Recorded(g, n1, d1), n2, d2)) == Flattened(d1)
  {
  }

  /** `flask.g` for one request. The application may assign `site` itself. */
  class RequestScope {
    var tmplCalled: Option<Value>
    var tmplData: Option<Value>
    var site: Option<Value>

    /** A fresh request starts with no attributes set. */
    constructor ()
      ensures tmplCalled.None? && tmplData.None? && site.None?
    {
      tmplCalled, tmplData, site := None, None, None;
    }

    function Snapshot(): Globals
      reads this
    {
      Globals(tmplCalled, tmplData, site)
    }

    /**
     * `template_called(name, data)`: record name and data unless a
     * template was already recorded in this request. Presence of the
     * attribute decides, so a first call with `name = None` also blocks
     * later ones.
     */
    method TemplateCalled(name: Value, data: Value)
      modifies this
      ensures old(tmplCalled).None? ==> tmplCalled == Some(name) && tmplData == Some(data)
      ensures old(tmplCalled).Some? ==> tmplCalled == old(tmplCalled) && tmplData == old(tmplData)
      ensures site == old(site)
      ensures Snapshot() == Recorded(old(Snapshot()), name, data)
    {
      if tmplCalled.None? {
        tmplCalled := Some(name);
        tmplData := Some(data);
      }
    }
  }
}
