/**
 * The root route (app/root.tsx): its `loader` and its copy of the toggle
 * `action`, the theme precedence `Document` renders with, and the status
 * dispatch of `CatchBoundary`.
 */
module Root {
  import opened Wrappers
  import Js
  import opened ThemeServer
  import ToggleTheme

  /** What the root `loader` hands to the page. */
  datatype LoaderData = LoaderData(themeName: string)

  /** The root `loader`: the theme resolved for the request. */
  function Loader(srv: Server, req: Request): (d: LoaderData)
    ensures ThemeCookieValue(srv, req).Some? ==> d.themeName == ThemeCookieValue(srv, req).value
    ensures ThemeCookieValue(srv, req).None? ==> d.themeName == req.colorSchemeHint.GetOr(srv.defaultTheme)
  {
    LoaderData(UserTheme(srv, req))
  }

  /**
   * The root `action`, written out as the route file writes it; it is the
   * same handler as the toggle endpoint's.
   */
  function Action(srv: Server, req: Request): (resp: ToggleTheme.Response)
    ensures resp == ToggleTheme.Action(srv, req)
  {
    var redirectBack := Js.StringOf(Js.FormGet(req.form, "redirectBack"));
    var currentTheme := UserTheme(srv, req);
    var newTheme := if currentTheme == "dark" then "light" else "dark";
    ToggleTheme.Redirect(302, Js.FirstTruthy([Some(redirectBack)], "/"), srv.codec.serialize(srv.cookie, newTheme))
  }

  /** The cookie the action writes is the flip of the theme the loader reported for the same request. */
  lemma ActionFlipsLoaderTheme(srv: Server, req: Request)
    ensures Action(srv, req).setCookie == srv.codec.serialize(srv.cookie, ToggleTheme.NewTheme(Loader(srv, req).themeName))
  {
  }

  /** `loaderData?.themeName`. */
  function LoaderTheme(loaderData: Option<LoaderData>): Option<string> {
    match loaderData
    case None => None
    case Some(d) => Some(d.themeName)
  }

  /**
   * The theme `Document` renders with:
   * `propThemeName || loaderData?.themeName || clientStyleData.themeName || DEFAULT_THEME`.
   * Each source is taken only when truthy, so "" falls through like an absent value.
   */
  function DocumentTheme(propThemeName: Option<string>, loaderData: Option<LoaderData>,
                         contextTheme: string, defaultTheme: string): (r: string)
    ensures Js.Truthy(propThemeName) ==> r == propThemeName.value
    ensures !Js.Truthy(propThemeName) && loaderData.Some? && loaderData.value.themeName != "" ==>
              r == loaderData.value.themeName
    ensures !Js.Truthy(propThemeName) && !Js.Truthy(LoaderTheme(loaderData)) && contextTheme != "" ==>
              r == contextTheme
    ensures !Js.Truthy(propThemeName) && !Js.Truthy(LoaderTheme(loaderData)) && contextTheme == "" ==>
              r == defaultTheme
    ensures defaultTheme != "" ==> r != ""
  {
    var cands := [propThemeName, LoaderTheme(loaderData), Some(contextTheme)];
    var r := Js.FirstTruthy(cands, defaultTheme);
    assert !Js.Truthy(cands[0]) && Js.Truthy(cands[1]) ==> forall j | 0 <= j < 1 :: !Js.Truthy(cands[j]);
    assert !Js.Truthy(cands[0]) && !Js.Truthy(cands[1]) && Js.Truthy(cands[2]) ==>
             forall j | 0 <= j < 2 :: !Js.Truthy(cands[j]);
    r
  }

  /**
   * An empty prop or loader theme is skipped, unlike in the resolver: the
   * same candidates chained with `??` would stop at the "".
   */
  lemma {:induction false} EmptyThemeFallsThrough(loaderData: Option<LoaderData>, contextTheme: string, defaultTheme: string)
    ensures DocumentTheme(Some(""), loaderData, contextTheme, defaultTheme)
            == DocumentTheme(None, loaderData, contextTheme, defaultTheme)
    ensures DocumentTheme(None, Some(LoaderData("")), contextTheme, defaultTheme)
            == DocumentTheme(None, None, contextTheme, defaultTheme)
    ensures Js.FirstNonNullish([Some(""), LoaderTheme(loaderData), Some(contextTheme)], defaultTheme) == ""
  {
  }

  /**
   * On an ordinary page (no prop), the rendered theme is the resolved one
   * whenever that is non-empty; a present but empty cookie value, which the
   * resolver returns as "", is replaced by the context or the default.
   */
  lemma RenderedThemeFollowsResolver(srv: Server, req: Request, contextTheme: string)
    ensures UserTheme(srv, req) != "" ==>
              DocumentTheme(None, Some(Loader(srv, req)), contextTheme, srv.defaultTheme) == UserTheme(srv, req)
    ensures ThemeCookieValue(srv, req) == Some("") ==>
              DocumentTheme(None, Some(Loader(srv, req)), contextTheme, srv.defaultTheme)
              == (if contextTheme != "" then contextTheme else srv.defaultTheme)
  {
  }

  /** The fixed text `CatchBoundary` shows for a 404. */
  const NotFoundMessage: string := "This is a custom error message for 404 pages"

  /** The shapes of a thrown response's `data` that the boundary distinguishes. */
  datatype CaughtData = NoData | TextData(text: string) | ObjectData(themeName: Option<string>)

  /** `useCatch()`: the response a loader or action threw. */
  datatype Caught = Caught(status: int, statusText: string, data: CaughtData)

  /** What the boundary re-throws: `caught.data || caught.statusText`, before `JSON.stringify`. */
  datatype ThrownPayload = DataPayload(data: CaughtData) | StatusTextPayload(statusText: string)

  /** The boundary either renders a page or throws an `Error`. */
  datatype Boundary = Rendered(message: string, themeProp: Option<string>) | Thrown(payload: ThrownPayload)

  /** An object is always truthy; a string is unless it is "". */
  predicate DataTruthy(d: CaughtData) {
    d.ObjectData? || (d.TextData? && d.text != "")
  }

  /** `caught.data?.themeName`: only an object carries the property. */
  function DataTheme(d: CaughtData): Option<string> {
    match d
    case ObjectData(t) => t
    case _ => None
  }

  /** `CatchBoundary`: a page for 404, an `Error` for every other status. */
  function CatchBoundary(caught: Caught): (b: Boundary)
    ensures b.Rendered? <==> caught.status == 404
    ensures b.Rendered? ==> b.message == NotFoundMessage
    ensures b.Rendered? ==> b.themeProp == DataTheme(caught.data)
    ensures b.Thrown? && DataTruthy(caught.data) ==> b.payload == DataPayload(caught.data)
    ensures b.Thrown? && !DataTruthy(caught.data) ==> b.payload == StatusTextPayload(caught.statusText)
  {
    if caught.status == 404 then
      Rendered(NotFoundMessage, DataTheme(caught.data))
    else if DataTruthy(caught.data) then
      Thrown(DataPayload(caught.data))
    else
      Thrown(StatusTextPayload(caught.statusText))
  }

  /** A 404 whose data names a non-empty theme is rendered in that theme, whatever the loader or context say. */
  lemma NotFoundPageUsesThrownTheme(caught: Caught, loaderData: Option<LoaderData>, contextTheme: string, defaultTheme: string)
    requires caught.status == 404 && caught.data.ObjectData? && Js.Truthy(caught.data.themeName)
    ensures var b := CatchBoundary(caught);
            b.Rendered? && DocumentTheme(b.themeProp, loaderData, contextTheme, defaultTheme) == caught.data.themeName.value
  {
  }
}
