/**
 * The server side of theme selection (app/utils/theme.server.ts): the
 * `theme` cookie's configuration and `getUserTheme`, which picks the theme
 * to render from the parsed cookie, the client's colour-scheme hint and the
 * application default, in that order.
 */
module ThemeServer {
  import opened Wrappers
  import Js

  /** The name the preference cookie is stored under. */
  const CookieName: string := "theme"

  /** The cookie's lifetime in milliseconds: ten years of 365 days. */
  const TenYearsMs: int := 1000 * 60 * 60 * 24 * 365 * 10

  /** The largest magnitude, in milliseconds, a JavaScript `Date` can hold. */
  const MaxTimeMs: int := 8_640_000_000_000_000

  /** The `NODE_ENV` value that marks a production deployment. */
  const Production: string := "production"

  /**
   * `new Date(ms)` for an integral millisecond count: a valid date within
   * the `Date` range, otherwise an Invalid Date (`None`).
   */
  function MakeDate(ms: int): (d: Option<int>)
    ensures d.Some? <==> -MaxTimeMs <= ms <= MaxTimeMs
    ensures d.Some? ==> d.value == ms
  {
    if -MaxTimeMs <= ms <= MaxTimeMs then Some(ms) else None
  }

  /** The options `createCookie` is given. */
  datatype CookieOptions = CookieOptions(name: string, expires: Option<int>, secure: bool)

  /**
   * The theme cookie, created once when the module is loaded: `startMs` is
   * `Date.now()` at that moment and `nodeEnv` is `process.env.NODE_ENV`
   * (`None` when unset).
   */
  function ThemeCookie(startMs: int, nodeEnv: Option<string>): (c: CookieOptions)
    ensures c.name == "theme"
    ensures c.secure <==> nodeEnv == Some("production")
    ensures c.expires.Some? ==> c.expires.value - startMs == 315_360_000_000
    ensures c.expires.Some? <==> startMs + 315_360_000_000 <= MaxTimeMs && -MaxTimeMs <= startMs + 315_360_000_000
  {
    CookieOptions(CookieName, MakeDate(startMs + TenYearsMs), nodeEnv == Some(Production))
  }

  /** Ten years here are 3650 days: leap days are not counted. */
  lemma {:induction false} TenYearsIsThreeThousandSixHundredFiftyDays()
    ensures TenYearsMs == 3650 * 86_400_000
    ensures TenYearsMs < 10 * 31_556_952_000
  {
  }

  /** Any clock reading from 1970 up to ten years before the end of the `Date` range gives a valid expiry. */
  lemma ThemeCookieExpiresForRealClock(startMs: int, nodeEnv: Option<string>)
    requires 0 <= startMs <= MaxTimeMs - TenYearsMs
    ensures ThemeCookie(startMs, nodeEnv).expires == Some(startMs + TenYearsMs)
  {
  }

  /**
   * The cookie library's `parse` and `serialize` (signing and encoding),
   * which this model does not interpret. `parse` maps the raw `Cookie`
   * header (null when absent) to the stored value, or null.
   */
  datatype Codec = Codec(
    parse: (CookieOptions, Option<string>) -> Option<string>,
    serialize: (CookieOptions, string) -> string)

  /** What the server is configured with. */
  datatype Server = Server(cookie: CookieOptions, codec: Codec, defaultTheme: string)

  /**
   * The parts of an incoming request the theme logic reads: the `Cookie`
   * and `Sec-CH-Prefers-Color-Scheme` headers (`None` when absent) and the
   * submitted form fields.
   */
  datatype Request = Request(cookieHeader: Option<string>, colorSchemeHint: Option<string>, form: seq<Js.FormField>)

  /** `getThemeCookie`: the theme cookie parsed out of the `Cookie` header. */
  function ThemeCookieValue(srv: Server, req: Request): Option<string> {
    srv.codec.parse(srv.cookie, req.cookieHeader)
  }

  /**
   * With the module's own cookie, `getThemeCookie` hands the cookie
   * library the options named "theme" and the raw `Cookie` header, and
   * nothing else about the request: requests with the same `Cookie` header
   * read the same value.
   */
  lemma ThemeCookieReadFromCookieHeader(startMs: int, nodeEnv: Option<string>, codec: Codec, defaultTheme: string,
                                        req: Request, req': Request)
    requires req.cookieHeader == req'.cookieHeader
    ensures var srv := Server(ThemeCookie(startMs, nodeEnv), codec, defaultTheme);
            && srv.cookie.name == "theme"
            && ThemeCookieValue(srv, req) == codec.parse(srv.cookie, req.cookieHeader)
            && ThemeCookieValue(srv, req) == ThemeCookieValue(srv, req')
  {
  }

  /**
   * `getUserTheme`: `cookie ?? hint ?? DEFAULT_THEME`. Only an absent value
   * falls through; a present one, even "" or a name that is not a theme, is
   * returned unchanged.
   */
  function UserTheme(srv: Server, req: Request): (r: string)
    ensures ThemeCookieValue(srv, req).Some? ==> r == ThemeCookieValue(srv, req).value
    ensures ThemeCookieValue(srv, req).None? && req.colorSchemeHint.Some? ==> r == req.colorSchemeHint.value
    ensures ThemeCookieValue(srv, req).None? && req.colorSchemeHint.None? ==> r == srv.defaultTheme
  {
    var cands := [ThemeCookieValue(srv, req), req.colorSchemeHint];
    var r := Js.FirstNonNullish(cands, srv.defaultTheme);
    assert cands[0].None? && cands[1].Some? ==> forall j | 0 <= j < 1 :: cands[j].None?;
    r
  }

  /** The resolved theme always comes from one of the three sources. */
  lemma UserThemeComesFromASource(srv: Server, req: Request)
    ensures UserTheme(srv, req) == ThemeCookieValue(srv, req).GetOr(req.colorSchemeHint.GetOr(srv.defaultTheme))
    ensures var r := UserTheme(srv, req);
            (ThemeCookieValue(srv, req) == Some(r)) || (req.colorSchemeHint == Some(r)) || r == srv.defaultTheme
  {
  }

  /** The resolution reads the request's two headers and nothing else. */
  lemma UserThemeReadsOnlyHeaders(srv: Server, req: Request, req': Request)
    requires req.cookieHeader == req'.cookieHeader && req.colorSchemeHint == req'.colorSchemeHint
    ensures UserTheme(srv, req) == UserTheme(srv, req')
  {
  }

  /** With a non-empty default the resolved theme can be empty only if the cookie or the hint is present and empty. */
  lemma UserThemeEmptyOnlyFromInput(srv: Server, req: Request)
    requires srv.defaultTheme != ""
    requires UserTheme(srv, req) == ""
    ensures ThemeCookieValue(srv, req) == Some("")
            || (ThemeCookieValue(srv, req).None? && req.colorSchemeHint == Some(""))
  {
  }
}
