# Bcsec authentication modes and middleware stack, in Dafny

This project models five parts of the Bcsec/Aker authentication layer for Rack
applications and proves what they promise:

- **HTTP Basic mode** (`HttpBasic`, with the codec in `Base64`): recognising an
  `Authorization: Basic <base64>` header (section 2 of RFC 2617; alphabet and
  padding as in section 6.8 of RFC 2045), decoding it (section 4 of RFC 4648),
  splitting it at the first colon, `valid?`, the realm and the 401 challenge.
- **CAS mode** (`Cas`): the service ticket as credentials, the service URL and
  the redirect to the CAS login page (section 2.2.1 of the CAS 2 protocol).
- **Middleware stack assembly** (`BcsecRack`): `use_in` registers the
  configured modes in Warden's strategy registry, then places Bcsec's stages
  on a Rack builder in a fixed order. The builder and the registry are
  classes whose methods update them in place.
- **Login form dispatch** (`FormMiddleware`): the form middleware's exact-match
  routing on `PATH_INFO`.
- **Automatic portal access** (`Authorities`): an authority that adds the
  configured portal to a user in place.

`Web` stands in for the parts of Rack and Ruby's URI library that these files
use. `Response` and `NewResponse`/`Redirect` follow Rack 1.x's `Rack::Response`:
the default `Content-Type: text/html` sits under the given headers, and
`redirect` sets status 302 and `Location`. `Uri`/`UriToString` follow
`URI::Generic#to_s` for scheme, host, port, path and query.
`DecimalString` is `Integer#to_s`. `Wrappers` holds `Option`, `Result` and
`Outcome`. Ruby symbols are strings here. Byte strings are `seq<Byte>`.
The modes' registry keys and credential kinds are constants: `HttpBasic.Key`
is `http_basic` and `HttpBasic.Kind` is `user` (http_basic.rb lines 32-42);
`Cas.Key` is `cas`.

Where the code and the usual description of the system differ, the model
follows the code:

- The CAS service URL is not URL-encoded by the mode itself: the login URL's
  query is set to `service=` and the service URL. What `URI::Generic#query=`
  then does with characters outside RFC 2396's query characters is left out
  (see below).
- A `ticket` parameter whose value is the empty string still makes the CAS mode
  valid. Only a missing ticket, or one given without a value, does not.
- Registering two modes under one key does not fail: the later one replaces
  the earlier one.
- An `Authorization` header of exactly `Basic ` (empty payload) matches the
  pattern but yields no credentials.
- The realm goes into the `WWW-Authenticate` challenge without quoted-string
  escaping. A configured realm holding `"` is therefore read back differently
  by a client (`HttpBasic.QuoteCutsRealm`): http_basic.rb:105 interpolates the
  realm unescaped.

## Model

| member | source | states |
|---|---|---|
| `Base64.PatternShape` | lib/bcsec/modes/http_basic.rb:26 | BasicPattern's payload group accepts exactly the strings whose length is a multiple of four and that are drawn from `A-Za-z0-9+/`, except that the last one or two characters may be `=`, and `=` only as a suffix |
| `Base64.EncodeIsPaddedBase64` | lib/bcsec/modes/http_basic.rb:26 | every RFC 4648 encoding is accepted by the payload pattern |
| `Base64.DecodeEncode` | lib/bcsec/modes/http_basic.rb:63 | decoding an encoding gives back the original octets |
| `Base64.Decode` | lib/bcsec/modes/http_basic.rb:63 | a decoded payload has three octets per group of four, less one per `=` |
| `HttpBasic.MatchBasic` | lib/bcsec/modes/http_basic.rb:26 | a header matches exactly when it is `Basic`, one space, and a payload of the shape above; the header is then the prefix followed by the captured payload |
| `HttpBasic.FirstColon` | lib/bcsec/modes/http_basic.rb:63 | the index found holds a colon and no colon comes before it |
| `HttpBasic.FirstColonAt` | lib/bcsec/modes/http_basic.rb:63 | a colon with no colon before it is the one the split uses |
| `HttpBasic.SplitOnce` | lib/bcsec/modes/http_basic.rb:63 | `split(':', 2)` gives nothing exactly for an empty string and two parts exactly when there is a colon; the first part holds no colon, and joining the parts with a colon gives back the input, so later colons stay in the password |
| `HttpBasic.Credentials` | lib/bcsec/modes/http_basic.rb:58-67 | at most two credentials; none without an `HTTP_AUTHORIZATION` entry |
| `HttpBasic.MalformedHeaderHasNoCredentials` | lib/bcsec/modes/http_basic.rb:60-65 | a header that is not `Basic` plus one space plus a well-formed payload yields no credentials and is not valid |
| `HttpBasic.ForeignCharacterHasNoCredentials` | lib/bcsec/modes/http_basic.rb:58-67 | a character outside the alphabet and `=` anywhere after the prefix yields no credentials |
| `HttpBasic.Valid` | lib/bcsec/modes/http_basic.rb:71-73 | `valid?` holds exactly when the header matches and its decoded payload contains a colon |
| `HttpBasic.CredentialsRoundTrip` | lib/bcsec/modes/http_basic.rb:44-66 | for a username without a colon and any password, the credentials of `Basic base64(user:password)` are `[user, password]`, and the request is valid |
| `HttpBasic.UsernameOnly` | lib/bcsec/modes/http_basic.rb:52-66 | a well-formed header whose payload is a non-empty username without a colon yields just `[username]`, and the request is not valid |
| `HttpBasic.Realm` | lib/bcsec/modes/http_basic.rb:95-97 | the configured `realm` parameter, or `Bcsec` when there is none |
| `HttpBasic.Scheme` | lib/bcsec/modes/http_basic.rb:104-106 | the challenge is `Basic realm="`, then exactly the realm, then a closing quote |
| `HttpBasic.SchemeCarriesRealm` | lib/bcsec/modes/http_basic.rb:95-106 | a client that reads the realm as an RFC 2616 quoted-string gets the configured realm back unchanged when it holds no `"` and no `\`; without a configured realm the challenge is `Basic realm="Bcsec"` |
| `HttpBasic.QuoteCutsRealm` | lib/bcsec/modes/http_basic.rb:104-106 | the realm is not escaped: a realm with a `"` (and no `"` or `\` before it) is read back only up to that quote, so not as configured |
| `HttpBasic.QuotedRealmExample` | lib/bcsec/modes/http_basic.rb:104-106 | the configured realm `a"b` is read back as `a` |
| `HttpBasic.OnUiFailure` | lib/bcsec/modes/http_basic.rb:83-85 | status 401, empty body, `WWW-Authenticate` equal to the challenge |
| `Cas.Kind` | lib/bcsec/modes/cas.rb:25-35 | the kind is the mode's key, `cas` |
| `Cas.Credentials` | lib/bcsec/modes/cas.rb:45-47 | at most one credential; exactly one, the ticket, when a `ticket` parameter with a value is present |
| `Cas.Valid` | lib/bcsec/modes/cas.rb:52-54 | `valid?` holds exactly when a `ticket` parameter with a value is present |
| `Cas.ServiceUrl` | lib/bcsec/modes/cas.rb:79-91 | without an attempted path the service URL is the request URL |
| `Cas.ServiceUrlPort` | lib/bcsec/modes/cas.rb:80-87 | with an attempted path the URL is `scheme://host`, then nothing for (https, 443) and (http, 80) and otherwise a colon and exactly the port's decimal digits (no leading zero, as `Integer#to_s` writes them), which read back as the port, then the attempted path |
| `Cas.PortShownUnlessDefault` | lib/bcsec/modes/cas.rb:83-85 | the port is left out exactly for (https, 443) and (http, 80) |
| `Cas.OnUiFailure` | lib/bcsec/modes/cas.rb:66-72 | a 302 whose Location is the login URL without its query, then `?service=` and the service URL |
| `Cas.ServiceUrlExamples` | spec/bcsec/modes/cas_spec.rb:104-117 | `http://example.org/foo/quux` on port 80 and `http://example.org:81/foo/quux` on port 81 |
| `Cas.HttpsOnPort80Example` | spec/bcsec/modes/cas_spec.rb:119-125 | https on port 80 gives `https://example.org:80/foo/quux` |
| `Web.DecimalRoundTrip` | lib/bcsec/modes/cas.rb:84 | the port written into the URL reads back as the port |
| `Web.QueryIsSuffix` | lib/bcsec/modes/cas.rb:68-69 | setting the login URL's query only appends `?` and the query to its string form |
| `BcsecRack.Effective` | lib/bcsec/rack.rb:39-43 | the argument configuration takes precedence; without one the global configuration is used; there is none only when neither is given |
| `BcsecRack.StrategyRegistry.Add` | lib/bcsec/rack.rb:69 | the registry afterwards maps the key to the mode and is otherwise unchanged |
| `BcsecRack.Installed` | lib/bcsec/rack.rb:67-71 | the registry after adding each mode under its key, in order |
| `BcsecRack.InstalledLookup` | lib/bcsec/rack.rb:67-71 | after installation a key is present exactly when it was before or some mode was registered under it; it holds the last mode registered under it; other keys keep their entries |
| `BcsecRack.InstallModes` | lib/bcsec/rack.rb:67-71 | the registry afterwards is the old one with every registered mode installed in order |
| `BcsecRack.Lookup` | lib/bcsec/rack.rb:84-86 | a key resolves exactly when it is registered, and then to the mode registered under it; an unknown key gives nil |
| `BcsecRack.ModeKeys` | lib/bcsec/rack.rb:84 | the interactive mode first, then the non-interactive modes in declaration order |
| `BcsecRack.ModeClasses` | lib/bcsec/rack.rb:81-87 | empty without a configuration; otherwise the registry's class for each mode key, position by position |
| `BcsecRack.HooksConcat` | lib/bcsec/rack.rb:75-79 | hooks run in class order: the hooks of two runs of classes are those of the first, then those of the second |
| `BcsecRack.HooksOnlyFromDefiningClasses` | lib/bcsec/rack.rb:76-78 | classes that do not define a hook, or that are unknown, contribute nothing |
| `BcsecRack.HookFreeClassVanishes` | lib/bcsec/rack.rb:76-78 | removing one class without the hook from anywhere in the list leaves the hooks of the others, in their order |
| `BcsecRack.WithModeMiddlewares` | lib/bcsec/rack.rb:75-79 | the builder afterwards holds the old stack followed by the middleware of each class's hook, in class order |
| `BcsecRack.StackOrder` | lib/bcsec/rack.rb:47-60 | Setup first; prepend hooks and before-authentication middleware; Warden manager immediately followed by Authenticate; after-authentication middleware; Logout('/logout') immediately followed by SessionTimer; append hooks; DefaultLogoutResponder('/logout') last |
| `BcsecRack.PlaceStages` | lib/bcsec/rack.rb:47-60 | the builder afterwards holds the old stack followed by exactly those stages |
| `BcsecRack.UseIn` | lib/bcsec/rack.rb:38-61 | fails with the source's message and changes nothing when there is no configuration; otherwise installs every registered mode, then places the stages with the mode classes resolved in the registry that installation produced |
| `BcsecRack.DeclaredModesResolve` | lib/bcsec/rack.rb:45-49 | a declared mode that the configuration also registers resolves, after installation, to a class with that key, so its hooks take part |
| `BcsecRack.DefaultPolicyParameters` | lib/bcsec/rack.rb:92-98 | the default `session-timeout-seconds` is 1800 |
| `FormMiddleware.Form.ProvideLoginHtml` | lib/bcsec/modes/middleware/form.rb:57-59 | status 200, the rendered form as body, `Content-Type: text/html` |
| `FormMiddleware.Form.ProvideLoginCss` | lib/bcsec/modes/middleware/form.rb:66-70 | status 200, the stylesheet as body, `Content-Type: text/css` |
| `FormMiddleware.Form.Call` | lib/bcsec/modes/middleware/form.rb:42-48 | `/` serves the form and `/login.css` the stylesheet, both with status 200; every other path gets the wrapped application's response unchanged |
| `FormMiddleware.NearMissesFallThrough` | lib/bcsec/modes/middleware/form.rb:43-47 | matching is exact: `''`, `//`, `/login.css/`, `/login.cs`, `/login` and `login.css` reach the wrapped application |
| `FormMiddleware.MissingPathFallsThrough` | lib/bcsec/modes/middleware/form.rb:43-46 | a request without `PATH_INFO` reaches the wrapped application |
| `Authorities.New` | lib/aker/authorities/automatic_access.rb:18-24 | fails with the source's message when no portal is configured; otherwise a new authority holding the configured portal |
| `Authorities.WithPortal` | lib/aker/authorities/automatic_access.rb:31 | the portal is present afterwards; the old list is kept as a prefix in its order; the portal is added once when missing and nothing is added when present |
| `Authorities.DefaultOr` | lib/aker/authorities/automatic_access.rb:32 | an existing default portal is kept; an unset one becomes the configured portal |
| `Authorities.AutomaticAccess.Amplify` | lib/aker/authorities/automatic_access.rb:30-34 | returns the same user; the portals and default portal become WithPortal and DefaultOr of their old values |
| `Authorities.AmplifyIdempotent` | lib/aker/authorities/automatic_access.rb:31-32 | amplifying twice leaves the same portals and default portal as amplifying once |
| `Authorities.AmplifyAddsNoDuplicate` | lib/aker/authorities/automatic_access.rb:31 | a portal list without duplicates stays without duplicates |

## Left out

- Ruby's `^` and `$` in BasicPattern are line anchors. The model matches the whole header, as if it held no newline.
- `Base64.decode64` is modelled only on payloads the pattern accepts, because `credentials` never decodes anything else. Its leniency on other input is not modelled.
- `Rack::Response`: the `Content-Length` bookkeeping, case-insensitive header names and `finish` are left out. A response is a status, headers and body parts.
- `request.url`, `request.host` and the merged GET/POST parameters are computed by Rack. They are inputs of the CAS request here.
- `cas_login_url` comes from `Bcsec::Cas::ConfigurationHelper`, which is not part of this model. The login URL is a parsed `Uri` parameter.
- `URI::Generic#to_s` with user info, fragments or opaque parts is not modelled.
- The `Warden::Manager` stage's `failure_app` (`Bcsec::Rack::Failure`) is not modelled beyond the stage's place in the stack.
- `Configuration#install_middleware` and the modes' `prepend_middleware` / `append_middleware` hooks are not part of this model. Each is taken to be the sequence of middleware it places on the builder, in order.
- `Bcsec.configuration`, the global configuration, is a parameter of `UseIn`.
- The Setup, Authenticate, Logout, SessionTimer and DefaultLogoutResponder middleware, the ticket remover, the login renderer and the authentication manager are not part of this model. Only their place in the stack is modelled.
- The login form asset providers (file reads and ERB rendering) are not part of this model. The rendered form and the stylesheet are inputs of the form middleware.
- The user model beyond the two fields `amplify!` updates is not part of this model.
- Cas.OnUiFailure: the check `URI::Generic#query=` makes on the new query is not modelled. Older Rubies raise `URI::InvalidComponentError` for a character outside RFC 2396's query characters (a space, `"`, `<`, `>`, `{`, `}`, `|`, `\`, `^`, a stray `%`, non-ASCII); newer ones percent-escape it. The model puts the service URL into the Location unchanged, which matches the code only for service URLs made of query characters.
- HttpBasic.SchemeCarriesRealm: the read-back is promised only for realms without `"` or `\`, because the code does not escape the realm; `HttpBasic.QuoteCutsRealm` states what happens otherwise.
- Authorities.User: `portals` is a value (`seq`) that `Amplify` reassigns. In the code `user.portals << @portal` appends to the array the user holds, so every other holder of that same array sees the new portal too. The model does not capture that aliasing.
- Concurrency: none of these files has any.
