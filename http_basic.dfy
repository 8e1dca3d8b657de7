/**
 * Bcsec::Modes::HttpBasic: credentials from an `Authorization: Basic ...`
 * header (section 2 of RFC 2617) and the 401 challenge sent when the mode is
 * the interactive one.
 */
module HttpBasic {
  import opened Wrappers
  import opened Base64
  import Web

  /** The Rack environment, as far as this mode reads it. */
  type Env = map<string, string>

  /** The `:http_basic` configuration parameter group. */
  type Parameters = map<string, string>

  /** The registry key of the mode (`self.key`). */
  const Key := "http_basic"

  /** The kind of credentials the mode supplies. */
  const Kind := "user"

  const AuthorizationKey := "HTTP_AUTHORIZATION"
  const ChallengeHeader := "WWW-Authenticate"
  const RealmParameter := "realm"
  const DefaultRealm := "Bcsec"
  const BasicPrefix := "Basic "
  const RealmPrefix := "Basic realm=\""

  /** The octet of `:`. */
  const Colon: Byte := 58

  /**
   * BasicPattern: the word `Basic`, one space, then a padded base64 payload
   * and nothing else; the payload is the match's first group.
   */
  function MatchBasic(header: string): (payload: Option<string>)
    ensures payload.Some? <==> |header| >= 6 && header[..6] == BasicPrefix && PaddedShape(header[6..])
    ensures payload.Some? ==> header == BasicPrefix + payload.value && IsPaddedBase64(payload.value)
  {
    if |header| >= 6 && header[..6] == BasicPrefix then
      var p := header[6..];
      PatternShape(p);
      assert header == header[..6] + p;
      if IsPaddedBase64(p) then Some(p) else None
    else None
  }

  /** The position of the first colon. */
  function FirstColon(s: seq<Byte>): (i: nat)
    requires Colon in s
    ensures i < |s| && s[i] == Colon && Colon !in s[..i]
  {
    if s[0] == Colon then 0
    else
      var j := FirstColon(s[1..]);
      assert s[..j + 1] == [s[0]] + s[1..][..j];
      j + 1
  }

  /** A colon with no colon before it is the first colon. */
  lemma {:induction false} FirstColonAt(s: seq<Byte>, k: nat)
    requires k < |s| && s[k] == Colon && Colon !in s[..k]
    ensures FirstColon(s) == k
  {
    if k > 0 {
      assert s[0] == s[..k][0];
      assert s[..k] == [s[0]] + s[1..][..k - 1];
      FirstColonAt(s[1..], k - 1);
    }
  }

  /**
   * Ruby's `split(':', 2)`: nothing for an empty string, the whole string when
   * there is no colon, and otherwise what comes before and after the first
   * colon, later colons staying in the second part.
   */
  function SplitOnce(s: seq<Byte>): (parts: seq<seq<Byte>>)
    ensures |parts| <= 2
    ensures parts == [] <==> s == []
    ensures |parts| == 2 <==> Colon in s
    ensures |parts| == 1 ==> parts[0] == s
    ensures |parts| == 2 ==> Colon !in parts[0] && s == parts[0] + [Colon] + parts[1]
  {
    if s == [] then []
    else if Colon in s then
      var i := FirstColon(s);
      assert s == s[..i] + [Colon] + s[i + 1..];
      [s[..i], s[i + 1..]]
    else [s]
  }

  /** `credentials`: username and password, a username alone, or nothing. */
  function Credentials(env: Env): (creds: seq<seq<Byte>>)
    ensures |creds| <= 2
    ensures AuthorizationKey !in env ==> creds == []
  {
    if AuthorizationKey in env then
      match MatchBasic(env[AuthorizationKey])
      case Some(payload) => SplitOnce(Decode(payload))
      case None => []
    else []
  }

  /** `valid?`: exactly when a well-formed header decodes to a payload containing a colon. */
  function Valid(env: Env): (valid: bool)
    ensures valid <==>
      && AuthorizationKey in env
      && MatchBasic(env[AuthorizationKey]).Some?
      && Colon in Decode(MatchBasic(env[AuthorizationKey]).value)
  {
    |Credentials(env)| == 2
  }

  /** A header that is not `Basic` plus one space plus a padded base64 payload yields nothing. */
  lemma MalformedHeaderHasNoCredentials(env: Env)
    requires AuthorizationKey in env
    requires var h := env[AuthorizationKey];
      !(|h| >= 6 && h[..6] == BasicPrefix && PaddedShape(h[6..]))
    ensures Credentials(env) == [] && !Valid(env)
  {
  }

  /** Any character outside the alphabet before the padding rejects the header. */
  lemma ForeignCharacterHasNoCredentials(env: Env, i: nat)
    requires AuthorizationKey in env
    requires var h := env[AuthorizationKey];
      6 <= i < |h| && !IsAlphabetChar(h[i]) && h[i] != Pad
    ensures Credentials(env) == []
  {
    var h := env[AuthorizationKey];
    if |h| >= 6 {
      var p := h[6..];
      assert h[i] == p[i - 6];
    }
  }

  /** The header a client sends for a username and a password. */
  function BasicHeader(user: seq<Byte>, password: seq<Byte>): string {
    BasicPrefix + Encode(user + [Colon] + password)
  }

  /** Round trip: a username without a colon and any password come back unchanged. */
  lemma CredentialsRoundTrip(user: seq<Byte>, password: seq<Byte>)
    requires Colon !in user
    ensures Credentials(map[AuthorizationKey := BasicHeader(user, password)]) == [user, password]
    ensures Valid(map[AuthorizationKey := BasicHeader(user, password)])
  {
    var payload := Encode(user + [Colon] + password);
    var h := BasicHeader(user, password);
    DecodeEncode(user + [Colon] + password);
    assert h[..6] == BasicPrefix && h[6..] == payload;
    PatternShape(payload);
    var s := user + [Colon] + password;
    assert s[..|user|] == user;
    FirstColonAt(s, |user|);
    var i := |user|;
    assert s[..i] == user;
    assert s[i + 1..] == password;
  }

  /** A payload without a colon comes back as the only credential, the username. */
  lemma UsernameOnly(user: seq<Byte>)
    requires user != [] && Colon !in user
    ensures Credentials(map[AuthorizationKey := BasicPrefix + Encode(user)]) == [user]
    ensures !Valid(map[AuthorizationKey := BasicPrefix + Encode(user)])
  {
    var payload := Encode(user);
    var h := BasicPrefix + payload;
    DecodeEncode(user);
    assert h[..6] == BasicPrefix && h[6..] == payload;
    PatternShape(payload);
  }

  /** `realm`: the configured `:realm`, or `Bcsec`. */
  function Realm(parameters: Parameters): (realm: string)
    ensures RealmParameter in parameters ==> realm == parameters[RealmParameter]
    ensures RealmParameter !in parameters ==> realm == DefaultRealm
  {
    if RealmParameter in parameters then parameters[RealmParameter] else DefaultRealm
  }

  /** `scheme`: the challenge `Basic realm="<realm>"`. */
  function Scheme(parameters: Parameters): (challenge: string)
    ensures |challenge| == |RealmPrefix| + |Realm(parameters)| + 1
    ensures challenge[..|RealmPrefix|] == RealmPrefix
    ensures challenge[|RealmPrefix|..|challenge| - 1] == Realm(parameters)
    ensures challenge[|challenge| - 1] == '"'
  {
    RealmPrefix + Realm(parameters) + "\""
  }

  /**
   * An RFC 2616 quoted-string after its opening quote: the text up to the
   * first `"` that is not escaped, with `\` taking the next character
   * literally, and what follows the closing quote.
   */
  function QuotedBody(s: string): Option<(string, string)>
    decreases |s|
  {
    if s == [] then None
    else if s[0] == '"' then Some(("", s[1..]))
    else
      var skip := if s[0] == '\\' then 2 else 1;
      if |s| < skip then None
      else match QuotedBody(s[skip..]) {
        case None => None
        case Some(r) => Some(([s[skip - 1]] + r.0, r.1))
      }
  }

  /** The realm a client reads out of a `Basic realm="..."` challenge. */
  function ChallengeRealm(challenge: string): Option<string> {
    if |challenge| >= |RealmPrefix| && challenge[..|RealmPrefix|] == RealmPrefix then
      match QuotedBody(challenge[|RealmPrefix|..]) {
        case None => None
        case Some(r) => Some(r.0)
      }
    else None
  }

  /** A realm that needs no escaping inside a quoted-string. */
  predicate PlainRealm(realm: string) {
    forall i :: 0 <= i < |realm| ==> realm[i] != '"' && realm[i] != '\\'
  }

  /** Text without `"` or `\` is read back up to the quote that closes it. */
  lemma {:induction false} QuotedBodyPlain(r: string, t: string)
    requires PlainRealm(r)
    ensures QuotedBody(r + "\"" + t) == Some((r, t))
    decreases |r|
  {
    if r == [] {
      assert r + "\"" + t == "\"" + t;
    } else {
      var s := r + "\"" + t;
      QuotedBodyPlain(r[1..], t);
      assert s[0] == r[0] && s[1..] == r[1..] + "\"" + t;
      assert [r[0]] + r[1..] == r;
    }
  }

  /** A client reads back exactly a realm that needs no escaping; the default realm is one. */
  lemma SchemeCarriesRealm(parameters: Parameters)
    ensures PlainRealm(Realm(parameters)) ==> ChallengeRealm(Scheme(parameters)) == Some(Realm(parameters))
    ensures RealmParameter !in parameters ==> Scheme(parameters) == "Basic realm=\"Bcsec\""
  {
    var realm := Realm(parameters);
    if PlainRealm(realm) {
      QuotedBodyPlain(realm, "");
      assert Scheme(parameters)[|RealmPrefix|..] == realm + "\"" + "";
    }
  }

  /**
   * The realm goes into the challenge unescaped: a client reads a realm with
   * a `"` only up to that quote, so it does not get the configured realm back.
   */
  lemma QuoteCutsRealm(parameters: Parameters, i: nat)
    requires i < |Realm(parameters)| && Realm(parameters)[i] == '"'
    requires PlainRealm(Realm(parameters)[..i])
    ensures ChallengeRealm(Scheme(parameters)) == Some(Realm(parameters)[..i])
    ensures ChallengeRealm(Scheme(parameters)) != Some(Realm(parameters))
  {
    var realm := Realm(parameters);
    QuotedBodyPlain(realm[..i], realm[i + 1..] + "\"");
    assert realm[..i] + "\"" + (realm[i + 1..] + "\"") == realm + "\"";
    assert Scheme(parameters)[|RealmPrefix|..] == realm + "\"";
  }

  /** The configured realm `a"b` is read back as `a`. */
  lemma QuotedRealmExample()
    ensures ChallengeRealm(Scheme(map[RealmParameter := "a\"b"])) == Some("a")
  {
    var parameters := map[RealmParameter := "a\"b"];
    assert Realm(parameters)[..1] == "a";
    QuoteCutsRealm(parameters, 1);
  }

  /** `on_ui_failure`: 401, an empty body, and the challenge header. */
  function OnUiFailure(parameters: Parameters): (r: Web.Response)
    ensures r.status == 401 && r.body == []
    ensures ChallengeHeader in r.headers && r.headers[ChallengeHeader] == Scheme(parameters)
  {
    Web.NewResponse([], 401, map[ChallengeHeader := Scheme(parameters)])
  }
}
