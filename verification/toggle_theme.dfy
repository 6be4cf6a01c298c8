/**
 * The toggle endpoint (app/routes/api/toggle-theme.ts): flips the resolved
 * theme, writes it back in a `Set-Cookie` header and redirects to the page
 * named in the form's `redirectBack` field.
 */
module ToggleTheme {
  import opened Wrappers
  import Js
  import opened ThemeServer

  const Light: string := "light"
  const Dark: string := "dark"

  /** The hidden form field carrying the page to return to. */
  const RedirectBackField: string := "redirectBack"

  /** Where the redirect goes when `redirectBack` is empty. */
  const HomePath: string := "/"

  /** The status code of the framework's `redirect` when none is given. */
  const FoundStatus: int := 302

  /** The theme after a toggle: "light" from "dark", "dark" from anything else. */
  function NewTheme(current: string): (r: string)
    ensures r == "light" <==> current == "dark"
    ensures r == "dark" <==> current != "dark"
  {
    if current == Dark then Light else Dark
  }

  /** Toggling twice gives back exactly the two real themes; any other value becomes "light". */
  lemma NewThemeInvolution(t: string)
    ensures NewTheme(NewTheme(t)) == t <==> t == "light" || t == "dark"
    ensures t != "light" && t != "dark" ==> NewTheme(NewTheme(t)) == "light"
  {
  }

  /** `String(form.get("redirectBack"))`. */
  function RedirectBack(form: seq<Js.FormField>): (s: string)
    ensures var field := Js.FormGet(form, "redirectBack");
            && (field.None? ==> s == "null")
            && (field.Some? && field.value.Text? ==> s == field.value.text)
            && (field == Some(Js.File) ==> s == "[object File]")
  {
    Js.StringOf(Js.FormGet(form, RedirectBackField))
  }

  /** `redirectBack || "/"`. */
  function RedirectTarget(redirectBack: string): (r: string)
    ensures redirectBack != "" ==> r == redirectBack
    ensures redirectBack == "" ==> r == "/"
  {
    Js.FirstTruthy([Some(redirectBack)], HomePath)
  }

  /** The framework's `redirect(location, { headers: { "Set-Cookie": ... } })`. */
  datatype Response = Redirect(status: int, location: string, setCookie: string)

  /** The endpoint's `action`. */
  function Action(srv: Server, req: Request): (resp: Response)
    ensures resp.status == 302
    ensures resp.setCookie == srv.codec.serialize(srv.cookie, if UserTheme(srv, req) == "dark" then "light" else "dark")
    ensures var field := Js.FormGet(req.form, "redirectBack");
            && (field.None? ==> resp.location == "null")
            && (field == Some(Js.Text("")) ==> resp.location == "/")
            && (forall t | field == Some(Js.Text(t)) && t != "" :: resp.location == t)
            && (field == Some(Js.File) ==> resp.location == "[object File]")
  {
    var redirectBack := RedirectBack(req.form);
    var newTheme := NewTheme(UserTheme(srv, req));
    Redirect(FoundStatus, RedirectTarget(redirectBack), srv.codec.serialize(srv.cookie, newTheme))
  }

  /**
   * The redirect goes to "/" exactly when `redirectBack` was submitted as
   * "" or as "/"; a request without the field goes to "null".
   */
  lemma RedirectsHomeIff(srv: Server, req: Request)
    ensures Action(srv, req).location == "/"
            <==> Js.FormGet(req.form, "redirectBack") in {Some(Js.Text("")), Some(Js.Text("/"))}
  {
  }

  /** A form without a `redirectBack` field sends the browser to the relative path "null". */
  lemma MissingFieldRedirectsToNull(srv: Server, req: Request)
    requires forall i | 0 <= i < |req.form| :: req.form[i].name != "redirectBack"
    ensures Action(srv, req).location == "null"
  {
  }

  /** The cookie written depends only on the request's headers, not on the form. */
  lemma SetCookieIgnoresForm(srv: Server, req: Request, req': Request)
    requires req.cookieHeader == req'.cookieHeader && req.colorSchemeHint == req'.colorSchemeHint
    ensures Action(srv, req).setCookie == Action(srv, req').setCookie
  {
    UserThemeReadsOnlyHeaders(srv, req, req');
  }

  /**
   * A first visit with no cookie and a dark system preference renders
   * "dark"; submitting the toggle form from "" then stores "light" and
   * goes home.
   */
  lemma FirstToggleFromDarkHint(srv: Server)
    requires srv.codec.parse(srv.cookie, None) == None
    ensures var req := Request(None, Some("dark"), [Js.FormField("redirectBack", Js.Text(""))]);
            && UserTheme(srv, req) == "dark"
            && Action(srv, req) == Redirect(302, "/", srv.codec.serialize(srv.cookie, "light"))
  {
  }

  /** The browser stores what `serialize` wrote and `parse` reads it back. */
  ghost predicate RoundTrips(srv: Server) {
    forall v: string :: srv.codec.parse(srv.cookie, Some(srv.codec.serialize(srv.cookie, v))) == Some(v)
  }

  /** The request a browser sends after storing `resp`'s cookie. */
  function WithCookie(req: Request, resp: Response): Request {
    req.(cookieHeader := Some(resp.setCookie))
  }

  /**
   * When the cookie survives the round trip, the next request renders the
   * flipped theme, and a second toggle restores a "light" or "dark" start.
   */
  lemma {:induction false} ToggleTwiceRestores(srv: Server, req: Request)
    requires RoundTrips(srv)
    ensures var req1 := WithCookie(req, Action(srv, req));
            && UserTheme(srv, req1) == NewTheme(UserTheme(srv, req))
            && (UserTheme(srv, req) in {"light", "dark"} ==>
                  UserTheme(srv, WithCookie(req1, Action(srv, req1))) == UserTheme(srv, req))
  {
    var req1 := WithCookie(req, Action(srv, req));
    var t0 := UserTheme(srv, req);
    assert ThemeCookieValue(srv, req1) == Some(NewTheme(t0));
    var req2 := WithCookie(req1, Action(srv, req1));
    assert ThemeCookieValue(srv, req2) == Some(NewTheme(NewTheme(t0)));
    NewThemeInvolution(t0);
  }
}
