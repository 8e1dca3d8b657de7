/**
 * Bcsec::Modes::Middleware::Form: serves the login form at `/` and its
 * stylesheet at `/login.css`, and passes every other request to the
 * application it wraps.
 */
module FormMiddleware {
  import Web

  /** The Rack environment; `PATH_INFO` may be absent. */
  type Env = map<string, string>

  const PathInfo := "PATH_INFO"
  const LoginPath := "/"
  const StylesheetPath := "/login.css"

  /** The asset provider: the rendered form for a request, and the stylesheet. */
  datatype Assets = Assets(loginHtml: Env -> string, loginCss: string)

  /** The middleware: the application it wraps and its asset provider, both fixed at construction. */
  datatype Form = Form(app: Env -> Web.Response, assets: Assets) {

    /** `provide_login_html`: the form, as a default (text/html) 200 response. */
    function ProvideLoginHtml(env: Env): (r: Web.Response)
      ensures r.status == 200 && r.body == [assets.loginHtml(env)]
      ensures r.headers == map[Web.ContentType := "text/html"]
    {
      Web.NewResponse([assets.loginHtml(env)], 200, map[])
    }

    /** `provide_login_css`: the stylesheet, as a 200 response with `Content-Type: text/css`. */
    function ProvideLoginCss(): (r: Web.Response)
      ensures r.status == 200 && r.body == [assets.loginCss]
      ensures r.headers == map[Web.ContentType := "text/css"]
    {
      Web.NewResponse([assets.loginCss], 200, map[Web.ContentType := "text/css"])
    }

    /** `call`: exact-match dispatch on `PATH_INFO`. */
    function Call(env: Env): (r: Web.Response)
      ensures IsFormPath(env) ==> r.status == 200
      ensures PathInfo in env && env[PathInfo] == LoginPath ==>
        r.body == [assets.loginHtml(env)] && Web.ContentType in r.headers && r.headers[Web.ContentType] == "text/html"
      ensures PathInfo in env && env[PathInfo] == StylesheetPath ==>
        r.body == [assets.loginCss] && Web.ContentType in r.headers && r.headers[Web.ContentType] == "text/css"
      ensures !IsFormPath(env) ==> r == app(env)
    {
      if PathInfo in env && env[PathInfo] == LoginPath then ProvideLoginHtml(env)
      else if PathInfo in env && env[PathInfo] == StylesheetPath then ProvideLoginCss()
      else app(env)
    }
  }

  /** The two paths the middleware answers itself. */
  predicate IsFormPath(env: Env) {
    PathInfo in env && (env[PathInfo] == LoginPath || env[PathInfo] == StylesheetPath)
  }

  /**
   * Matching is exact: a path that differs from `/` and `/login.css` in any
   * way, such as `/login.css/`, `/login.cs`, `//` or the empty path, reaches
   * the wrapped application.
   */
  lemma NearMissesFallThrough(f: Form, env: Env)
    requires PathInfo in env
    requires env[PathInfo] in ["", "//", "/login.css/", "/login.cs", "/login", "login.css"]
    ensures f.Call(env) == f.app(env)
  {
  }

  /** A request without `PATH_INFO` reaches the wrapped application. */
  lemma MissingPathFallsThrough(f: Form, env: Env)
    requires PathInfo !in env
    ensures f.Call(env) == f.app(env)
  {
  }
}
