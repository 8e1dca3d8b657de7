/**
 * The slice of Rack and Ruby's URI library that the modes use: a response
 * record built the way Rack 1.x's Rack::Response builds it, a URI record with
 * its string form, and Integer#to_s for ports.
 */
module Web {
  import opened Wrappers

  type Headers = map<string, string>

  /** A finished Rack response: status, headers and body parts. */
  datatype Response = Response(status: int, headers: Headers, body: seq<string>)

  const ContentType := "Content-Type"
  const Location := "Location"

  /**
   * Rack::Response.new(body, status, header): the headers given are merged
   * over a default `Content-Type: text/html`.
   */
  function NewResponse(body: seq<string>, status: int, headers: Headers): (r: Response)
    ensures r.status == status && r.body == body
    ensures r.headers.Keys == headers.Keys + {ContentType}
    ensures forall k :: k in headers ==> r.headers[k] == headers[k]
    ensures ContentType !in headers ==> r.headers[ContentType] == "text/html"
  {
    Response(status, map[ContentType := "text/html"] + headers, body)
  }

  /** Rack::Response#redirect(target): status 302 and a Location header. */
  function Redirect(r: Response, target: string): (q: Response)
    ensures q.status == 302 && q.body == r.body
    ensures q.headers.Keys == r.headers.Keys + {Location}
    ensures q.headers[Location] == target
    ensures forall k :: k in r.headers && k != Location ==> q.headers[k] == r.headers[k]
  {
    r.(status := 302, headers := r.headers[Location := target])
  }

  predicate IsDigit(c: char) {
    '0' <= c <= '9'
  }

  function DigitChar(d: nat): (c: char)
    requires d < 10
    ensures IsDigit(c)
  {
    ('0' as int + d) as char
  }

  /** Integer#to_s for a non-negative integer: decimal, no leading zeros. */
  function DecimalString(n: nat): (s: string)
    ensures |s| >= 1
    ensures forall i :: 0 <= i < |s| ==> IsDigit(s[i])
    ensures |s| > 1 ==> s[0] != '0'
    decreases n
  {
    if n < 10 then [DigitChar(n)] else DecimalString(n / 10) + [DigitChar(n % 10)]
  }

  /** The value of a string of decimal digits; the inverse of DecimalString. */
  function DecimalValue(s: string): nat
    requires forall i :: 0 <= i < |s| ==> IsDigit(s[i])
  {
    if s == [] then 0
    else
      assert IsDigit(s[|s| - 1]);
      10 * DecimalValue(s[..|s| - 1]) + (s[|s| - 1] as int - '0' as int)
  }

  /** Reading back the decimal rendering of a port gives the port. */
  lemma {:induction false} DecimalRoundTrip(n: nat)
    ensures DecimalValue(DecimalString(n)) == n
    decreases n
  {
    var s := DecimalString(n);
    if n >= 10 {
      DecimalRoundTrip(n / 10);
      assert s[..|s| - 1] == DecimalString(n / 10);
    }
  }

  /** A parsed URI: scheme, host, optional port, path and optional query. */
  datatype Uri = Uri(scheme: string, host: string, port: Option<nat>, path: string, query: Option<string>)

  /** The default port of the URI classes for http and https. */
  function DefaultPort(scheme: string): Option<nat> {
    if scheme == "http" then Some(80) else if scheme == "https" then Some(443) else None
  }

  /** URI#to_s: the port is written only when it differs from the scheme's default. */
  function UriToString(u: Uri): string {
    u.scheme + "://" + u.host
    + (if u.port.Some? && DefaultPort(u.scheme) != u.port then ":" + DecimalString(u.port.value) else "")
    + u.path
    + (if u.query.Some? then "?" + u.query.value else "")
  }

  /** Setting the query appends `?query` to the query-less string form and changes nothing before it. */
  lemma QueryIsSuffix(u: Uri, q: string)
    ensures UriToString(u.(query := Some(q))) == UriToString(u.(query := None)) + "?" + q
  {
  }
}
