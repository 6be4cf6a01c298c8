# Theme selection of a Remix app, in Dafny

This project models the theme-selection core of a small Remix application
that lets a visitor switch between a light and a dark theme:

- **Resolution** (`getUserTheme`): the theme to render is the value parsed
  from the `theme` cookie, else the `Sec-CH-Prefers-Color-Scheme` request
  header, else the application's `DEFAULT_THEME`, chained with `??`.
- **Toggle** (the `action` of `/api/toggle-theme`, duplicated in the root
  route): the new theme is `"light"` when the resolved theme is `"dark"`
  and `"dark"` otherwise; it is written to a `Set-Cookie` header and the
  response redirects to `String(form.get("redirectBack")) || "/"`.
- **Rendering** (`Document` in the root route): the theme is the first
  truthy value of the component prop, the loader's `themeName`, the client
  style context and `DEFAULT_THEME`, chained with `||`; next to it,
  `CatchBoundary` renders a fixed message for 404 and throws an `Error` carrying its data or status text otherwise.
- **Client lookup** (`getCookie`): the decoded cookie string is split on
  `"; "` and the value after `name=` in the last segment that starts with
  it is returned, or `""`.

Modules: `Wrappers` (Option), `Js` (the JavaScript operators `??`, `||`,
`FormData.get` and `String(...)`), `Strings` (`indexOf`, `split`, `join`),
`ThemeServer`, `ToggleTheme`, `Root` and `ThemeClient`, one per source file.

The model follows what the code does, also where its types suggest more.
Two such places:

- the `ThemeNames` return type of `getUserTheme`
  (app/utils/theme.server.ts:23) suggests a closed set, but the resolver
  does not check the cookie or the header against `{"light", "dark"}`: any
  present value, `""` included, is returned unchanged;
- an absent `redirectBack` field is turned into the string `"null"` by
  `String(...)`, which is truthy, so the redirect goes to `"null"`, not to
  `"/"`; only a field submitted empty falls back to `"/"`.

Inputs the code takes from its environment are parameters: the cookie
library's `parse`/`serialize` are the two function fields of
`ThemeServer.Codec` (left uninterpreted), `Date.now()` at module load is
`startMs`, `process.env.NODE_ENV` is `nodeEnv`, `DEFAULT_THEME` is
`Server.defaultTheme`, the two request headers are fields of `Request`, and
the client lookup takes the already decoded cookie string.

## Model

| member | source | states |
|---|---|---|
| ThemeServer.MakeDate | app/utils/theme.server.ts:9 | `new Date(ms)` is valid exactly within ±8.64e15 ms and then holds `ms` |
| ThemeServer.ThemeCookie | app/utils/theme.server.ts:8-11 | the cookie is named "theme", expires 315 360 000 000 ms after the clock reading when that date is valid, and is secure iff NODE_ENV is "production" |
| ThemeServer.TenYearsIsThreeThousandSixHundredFiftyDays | app/utils/theme.server.ts:9 | the "10 years" lifetime is 3650 days, shorter than ten calendar years |
| ThemeServer.ThemeCookieExpiresForRealClock | app/utils/theme.server.ts:9 | any clock reading from 0 up to ten years before the end of the Date range yields a valid expiry |
| ThemeServer.ThemeCookieReadFromCookieHeader | app/utils/theme.server.ts:8-18 | with the module's cookie, the parsed value is the cookie library's parse of the raw `Cookie` header under options named "theme", and depends on nothing else in the request |
| ThemeServer.UserTheme | app/utils/theme.server.ts:23-30 | a present cookie value wins over everything; with no cookie a present hint wins; with neither the default is returned |
| ThemeServer.UserThemeComesFromASource | app/utils/theme.server.ts:29 | the result is the cookie value, the hint or the default, with no validation of the value |
| ThemeServer.UserThemeReadsOnlyHeaders | app/utils/theme.server.ts:16-29 | two requests with the same Cookie and hint headers resolve to the same theme |
| ThemeServer.UserThemeEmptyOnlyFromInput | app/utils/theme.server.ts:29 | with a non-empty default, "" is returned only when the cookie or (absent cookie) the hint is present and "" |
| Js.FirstNonNullish | app/utils/theme.server.ts:29 | `a ?? b ?? c` returns the first candidate that is not null/undefined, whatever string it is, else the last operand |
| Js.FirstTruthy | app/root.tsx:88-93 | `a \|\| b \|\| c` returns the first candidate that is neither null/undefined nor "", else the last operand |
| Js.ChainsAgreeWithoutEmpty | app/root.tsx:87-94 | when no candidate is "", the `??` chain and the `\|\|` chain choose the same value |
| Js.FormGet | app/routes/api/toggle-theme.ts:15 | `form.get` is null iff no field has the name, else the value of the first field with it |
| Js.StringOf | app/routes/api/toggle-theme.ts:15 | `String(...)` of a form entry gives its text, "null" for a missing one, "[object File]" for a file; "" only for an empty text field |
| ToggleTheme.NewTheme | app/routes/api/toggle-theme.ts:18 | the new theme is "light" iff the current one is "dark", and "dark" for every other value |
| ToggleTheme.NewThemeInvolution | app/routes/api/toggle-theme.ts:18 | toggling twice restores exactly "light" and "dark"; any other value ends as "light" |
| ToggleTheme.RedirectBack | app/routes/api/toggle-theme.ts:15 | no entry gives "null", a text entry its text, a file "[object File]" |
| ToggleTheme.RedirectTarget | app/routes/api/toggle-theme.ts:20 | a non-empty redirectBack is the target; "" redirects to "/" |
| ToggleTheme.Action | app/routes/api/toggle-theme.ts:12-25 | the response is a 302 whose cookie is the serialised flip of the resolved theme and whose location is the field's text, "/" for "", "null" for a missing field |
| ToggleTheme.RedirectsHomeIff | app/routes/api/toggle-theme.ts:15-20 | the redirect goes to "/" iff redirectBack was submitted as "" or "/" |
| ToggleTheme.MissingFieldRedirectsToNull | app/routes/api/toggle-theme.ts:15-20 | a form with no `redirectBack` field redirects to "null", not to "/" |
| ToggleTheme.SetCookieIgnoresForm | app/routes/api/toggle-theme.ts:17-22 | the written cookie does not depend on the form |
| ToggleTheme.FirstToggleFromDarkHint | app/routes/api/toggle-theme.ts:12-25 | no cookie and a "dark" hint resolve to "dark"; toggling with redirectBack "" stores "light" and redirects to "/" |
| ToggleTheme.ToggleTwiceRestores | app/routes/api/toggle-theme.ts:17-22 | if parse reads back what serialize wrote, the next request resolves to the flipped theme and a second toggle restores a "light"/"dark" start |
| Root.Loader | app/root.tsx:48-54 | the loader's themeName is the cookie value if present, else the hint, else the default |
| Root.Action | app/root.tsx:59-72 | the root action yields the same response as the toggle endpoint |
| Root.ActionFlipsLoaderTheme | app/root.tsx:48-72 | the cookie the action writes is the flip of the loader's themeName for the same request |
| Root.DocumentTheme | app/root.tsx:87-94 | a truthy prop wins; else a non-empty loader theme; else a non-empty context theme; else the default; non-empty whenever the default is |
| Root.EmptyThemeFallsThrough | app/root.tsx:88-93 | an empty prop or loader theme behaves as absent, whereas the `??` chain would stop at it |
| Root.RenderedThemeFollowsResolver | app/root.tsx:85-93 | on a plain page the rendered theme is the resolved one when non-empty; an empty cookie value is replaced by the context or default |
| Root.CatchBoundary | app/root.tsx:173-185 | renders the fixed 404 message iff status is 404; otherwise throws `data` when truthy, else `statusText` |
| Root.NotFoundPageUsesThrownTheme | app/root.tsx:177-188 | a 404 whose data carries a non-empty themeName is rendered in that theme |
| Strings.IndexOf | app/utils/theme.client.ts:13 | `indexOf` gives the first occurrence; it is 0 iff the needle is a prefix |
| Strings.Split | app/utils/theme.client.ts:10 | `split(sep)` gives at least one piece, none containing sep, that join back to the input; a string without sep is its own piece; otherwise the first piece ends at the first occurrence of sep |
| ThemeClient.LastMatch | app/utils/theme.client.ts:11-14 | none iff no segment matches; otherwise a matching segment after which none matches |
| ThemeClient.CookieValue | app/utils/theme.client.ts:11-15 | "" when no segment matches; otherwise the last matching segment is `name=` followed by the value |
| ThemeClient.CookieValueExtend | app/utils/theme.client.ts:12-14 | a later matching segment overrides the value found so far, a non-matching one leaves it |
| ThemeClient.ScanSegments | app/utils/theme.client.ts:11-15 | the in-order loop that overwrites the result at each match ends with the last-match value |
| ThemeClient.GetCookie | app/utils/theme.client.ts:7-16 | the loop over the split segments computes the last-match value for `cName + "="` |
| ThemeClient.MatchesIffPrefix | app/utils/theme.client.ts:13 | a segment matches iff it starts with the whole `name=` |
| ThemeClient.MatchIsAnchoredAndExact | app/utils/theme.client.ts:8-13 | "xtheme=a" and "themes=a" do not match the name "theme"; "theme=a" does |
| ThemeClient.NoSeparatorIsOneSegment | app/utils/theme.client.ts:10 | a string without "; " is a single segment, so ";" alone does not separate cookies |
| ThemeClient.CookieValueIsSegmentTail | app/utils/theme.client.ts:13 | a non-empty result is the tail of some segment, right after `name=` |
| ThemeClient.CookieValueAvoidsSeparator | app/utils/theme.client.ts:10-13 | when no segment contains the separator, neither does the value found; so a value from the "; " split never holds "; " |

## Left out

- Rendering: the `Document` markup, the emotion-cache re-injection effect, `Layout`, `App`, `ErrorBoundary` (its `JSON.parse` of the error message), the theme switch component and the client style context are UI state with no decision logic beyond what is modelled.
- The cookie library's `parse` and `serialize` (signing, base64) are uninterpreted functions; `ToggleTheme.ToggleTwiceRestores` assumes `parse` reads back what `serialize` wrote, which also abstracts away the browser turning a `Set-Cookie` header into the next `Cookie` header.
- `request.formData()`, the framework's `redirect`, and the `Headers` lookup (case-insensitive names, repeated headers) are not modelled: the two headers read are plain optional fields of the request.
- `document.cookie`, `decodeURIComponent` (which can throw on malformed input), `atob` and `JSON.parse` in `getParsedCookie` are browser I/O and foreign decoders; `GetCookie` takes the decoded string.
- `Date.now()` and `process.env` are parameters; the cookie options are computed once, from the clock reading at module load.
- `~/themes` (`DEFAULT_THEME`, `getTheme`, the palettes) is not part of this model; the default theme is a parameter.
- `Root.DocumentTheme`: the chain is computed afresh on every call, whereas the component caches it with `useMemo` on `[loaderData, clientStyleData]` (app/root.tsx:87-94), so a change of the prop alone does not re-run the chain and the earlier theme is kept; React's memoisation is not modelled.
- `Root.CatchBoundary`: `caught.data` is limited to absent, a string or an object with an optional `themeName`; other JSON values (numbers, booleans, arrays) and the `JSON.stringify` of the thrown payload are not modelled.
- `ThemeServer.MakeDate`: JavaScript numbers are doubles; the millisecond arithmetic is modelled on integers, which is exact here because every valid date lies below 2^53.
