/**
 * Bcsec::Modes::Cas: the service ticket as credentials, and the redirect to
 * the CAS server's login page (section 2.2.1 of the CAS 2 protocol) whose
 * `service` parameter is the URL of the resource that was asked for.
 */
module Cas {
  import opened Wrappers
  import Web

  /**
   * What the mode reads of a Rack request: scheme, host and port; the full
   * request URL as Rack computes it; the merged GET and POST parameters (a
   * parameter given without a value is None); and `warden.options`.
   */
  datatype Request = Request(
    scheme: string,
    host: string,
    port: nat,
    url: string,
    params: map<string, Option<string>>,
    wardenOptions: Option<map<string, string>>)

  /** The registry key of the mode (`self.key`). */
  const Key := "cas"

  const TicketParameter := "ticket"
  const AttemptedPathOption := "attempted_path"
  const ServicePrefix := "service="

  /** `kind`: the class's key. */
  function Kind(): (kind: string)
    ensures kind == Key && kind == "cas"
  {
    Key
  }

  /** `credentials`: `[request['ticket']].compact`. */
  function Credentials(req: Request): (creds: seq<string>)
    ensures |creds| <= 1
    ensures |creds| == 1 <==> TicketParameter in req.params && req.params[TicketParameter].Some?
    ensures |creds| == 1 ==> creds[0] == req.params[TicketParameter].value
  {
    if TicketParameter in req.params && req.params[TicketParameter].Some?
    then [req.params[TicketParameter].value]
    else []
  }

  /** `valid?`: some credentials were found, exactly when a ticket parameter with a value is present. */
  function Valid(req: Request): (valid: bool)
    ensures valid <==> TicketParameter in req.params && req.params[TicketParameter].Some?
  {
    Credentials(req) != []
  }

  /** The pairs whose port the service URL leaves out. */
  const DefaultPortPairs: seq<(string, nat)> := [("https", 443), ("http", 80)]

  predicate IsDefaultPort(scheme: string, port: nat) {
    (scheme, port) in DefaultPortPairs
  }

  /** `env['warden.options'][:attempted_path]`, when both are present. */
  function AttemptedPath(req: Request): Option<string> {
    if req.wardenOptions.Some? && AttemptedPathOption in req.wardenOptions.value
    then Some(req.wardenOptions.value[AttemptedPathOption])
    else None
  }

  /** `:port`, or nothing for (https, 443) and (http, 80). */
  function PortSuffix(scheme: string, port: nat): string {
    if IsDefaultPort(scheme, port) then "" else ":" + Web.DecimalString(port)
  }

  /** `service_url`: built from scheme, host, port and attempted path, or the request URL. */
  function ServiceUrl(req: Request): (url: string)
    ensures AttemptedPath(req).None? ==> url == req.url
  {
    match AttemptedPath(req)
    case Some(path) => req.scheme + "://" + req.host + PortSuffix(req.scheme, req.port) + path
    case None => req.url
  }

  /**
   * With an attempted path, the service URL starts with `scheme://host` and
   * ends with the path; what lies between is empty exactly for the two
   * default pairs, and otherwise a colon followed by the port's decimal
   * digits, which read back as the port.
   */
  lemma ServiceUrlPort(req: Request)
    requires AttemptedPath(req).Some?
    ensures var url, path := ServiceUrl(req), AttemptedPath(req).value;
      var start := |req.scheme| + 3 + |req.host|;
      && start <= |url| - |path|
      && url[..start] == req.scheme + "://" + req.host
      && url[|url| - |path|..] == path
      && (url[start..|url| - |path|] == [] <==> IsDefaultPort(req.scheme, req.port))
      && (!IsDefaultPort(req.scheme, req.port) ==>
            var between := url[start..|url| - |path|];
            && between[0] == ':'
            && (forall i :: 1 <= i < |between| ==> Web.IsDigit(between[i]))
            && between[1..] == Web.DecimalString(req.port)
            && Web.DecimalValue(between[1..]) == req.port)
  {
    var url, path := ServiceUrl(req), AttemptedPath(req).value;
    var origin := req.scheme + "://" + req.host;
    var suffix := PortSuffix(req.scheme, req.port);
    assert url == origin + suffix + path;
    var start := |origin|;
    assert url[..start] == origin;
    assert url[|url| - |path|..] == path;
    assert url[start..|url| - |path|] == suffix;
    if !IsDefaultPort(req.scheme, req.port) {
      Web.DecimalRoundTrip(req.port);
      assert suffix[1..] == Web.DecimalString(req.port);
    }
  }

  /** The port is shown for every pair other than the two defaults, for instance http:81 and https:80. */
  lemma PortShownUnlessDefault(scheme: string, port: nat)
    ensures PortSuffix(scheme, port) == "" <==> (scheme == "https" && port == 443) || (scheme == "http" && port == 80)
  {
    if (scheme == "https" && port == 443) || (scheme == "http" && port == 80) {
      assert (scheme, port) == DefaultPortPairs[0] || (scheme, port) == DefaultPortPairs[1];
    }
  }

  /** `on_ui_failure`: a redirect to the login URL with its query replaced by `service=<service URL>`. */
  function OnUiFailure(loginUrl: Web.Uri, req: Request): (r: Web.Response)
    ensures r.status == 302 && r.body == []
    ensures Web.Location in r.headers
    ensures r.headers[Web.Location]
      == Web.UriToString(loginUrl.(query := None)) + "?" + ServicePrefix + ServiceUrl(req)
  {
    var location := loginUrl.(query := Some(ServicePrefix + ServiceUrl(req)));
    Web.QueryIsSuffix(loginUrl, ServicePrefix + ServiceUrl(req));
    Web.Redirect(Web.NewResponse([], 200, map[]), Web.UriToString(location))
  }

  /** The service URLs of the test suite's example requests on example.org. */
  lemma ServiceUrlExamples(req: Request)
    requires req.scheme == "http" && req.host == "example.org"
    requires req.wardenOptions == Some(map[AttemptedPathOption := "/foo/quux"])
    ensures req.port == 80 ==> ServiceUrl(req) == "http://example.org/foo/quux"
    ensures req.port == 81 ==> ServiceUrl(req) == "http://example.org:81/foo/quux"
  {
    if req.port == 81 {
      assert Web.DecimalString(81) == "81" by {
        assert Web.DecimalString(8) == "8";
      }
      assert !IsDefaultPort("http", 81);
    }
  }

  /** With scheme https the port 80 is not a default and is shown. */
  lemma HttpsOnPort80Example(req: Request)
    requires req.scheme == "https" && req.host == "example.org" && req.port == 80
    requires req.wardenOptions == Some(map[AttemptedPathOption := "/foo/quux"])
    ensures ServiceUrl(req) == "https://example.org:80/foo/quux"
  {
    assert Web.DecimalString(80) == "80" by {
      assert Web.DecimalString(8) == "8";
    }
    assert !IsDefaultPort("https", 80);
  }
}
