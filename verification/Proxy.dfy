/** The request proxy: which requests it answers itself, which it redirects, and where redirects lead. */
module Proxy {
  import opened JsValues

  const ALLOWLIST: seq<string> := [
    "/app/login", "/app/register", "/app/mfa", "/app/forgot-password", "/app/reset-password/", "/app/sign-in/",
    "/app/invite/", "/app/support", "/documents/acceptance", "/app/site-admin/documents", "/api/auth/", "/api/mfa/",
    "/api/health", "/api/documents/acceptance", "/api/site-admin/documents/recovery", "/api/access-requests/",
    "/api/support/", "/api/public-tools/", "/api/brand-kit/", "/api/union-brand/", "/api/host-brand/", "/api/comms/"]

  predicate EndsWithSlash(s: string) {
    s != "" && s[|s| - 1] == '/'
  }

  predicate CoveredBy(path: string, entry: string) {
    if EndsWithSlash(entry) then StartsWith(path, entry) else path == entry || StartsWith(path, entry + "/")
  }

  predicate Allowlisted(path: string) {
    exists i :: 0 <= i < |ALLOWLIST| && CoveredBy(path, ALLOWLIST[i])
  }

  predicate IsSpecialFile(path: string, name: string) {
    path == name || path == name + "/" || StartsWith(path, name + "/")
  }

  predicate IsPassThrough(path: string) {
    || IsSpecialFile(path, "/opengraph-image") || IsSpecialFile(path, "/twitter-image")
    || IsSpecialFile(path, "/viewport-lab") || IsSpecialFile(path, "/load-test-lab")
  }

  /** `path.split("/")[1]`, or `None` when there is no slash. */
  function SecondPiece(path: string): Option<string> {
    if path == "" then None
    else if path[0] == '/' then Some(UpToSlash(path[1..]))
    else SecondPiece(path[1..])
  }

  function LocaleOf(path: string): string {
    if SecondPiece(path) == Some("fr") then "fr" else "en"
  }

  /** The path without its locale prefix. */
  function RoutePath(path: string): string {
    if StartsWith(path, "/en/") || StartsWith(path, "/fr/") then path[3..] else path
  }

  /** What the session says, and what looking up outstanding document acceptances would yield. */
  datatype Auth = SignedOut | SignedIn(hasUserId: bool, hasUnion: bool, prefersPortal: bool)
  datatype Acceptance = Nothing | Outstanding | Unavailable
  datatype Session = Session(auth: Auth, acceptance: Acceptance)

  datatype Decision =
    | PassThrough
    | AcceptanceRequired           // 428, JSON
    | AcceptanceUnavailable        // 503
    | Redirect(path: string)       // without its query
    | Page                         // on to locale routing and rendering

  predicate IsApi(path: string) {
    StartsWith(RoutePath(path), "/api/")
  }

  predicate IsProtected(path: string) {
    var route := RoutePath(path);
    Includes(route, "/app") || Includes(route, "/portal") || (IsApi(path) && !Allowlisted(route))
  }

  predicate IsLogin(path: string) {
    Includes(path, "/app/login")
  }

  predicate IsMagicSignIn(path: string) {
    Includes(path, "/app/sign-in/")
  }

  predicate IsAppRoute(path: string) {
    && Includes(path, "/app") && !IsLogin(path) && !Includes(path, "/app/register") && !Includes(path, "/app/invite/")
    && !Includes(path, "/app/forgot-password") && !Includes(path, "/app/reset-password/") && !IsMagicSignIn(path)
  }

  predicate IsPortalRoute(path: string) {
    Includes(path, "/portal")
  }

  function AcceptancePath(locale: string): string {
    "/" + locale + "/documents/acceptance"
  }

  function LoginPath(locale: string): string {
    "/" + locale + "/app/login"
  }

  function HomePath(locale: string, prefersPortal: bool): string {
    "/" + locale + (if prefersPortal then "/portal" else "/app")
  }

  /** What the proxy reads off a path. */
  datatype Traits = Traits(passThrough: bool, api: bool, gated: bool, signIn: bool, membersOnly: bool)

  function TraitsOf(path: string): Traits {
    Traits(IsPassThrough(path), IsApi(path), IsProtected(path) && !Allowlisted(RoutePath(path)),
           IsLogin(path) || IsMagicSignIn(path), IsAppRoute(path) || IsPortalRoute(path))
  }

  function Judge(t: Traits, locale: string, s: Session): Decision {
    var checked := t.gated && s.auth.SignedIn? && s.auth.hasUserId && s.auth.hasUnion;
    if t.passThrough then PassThrough
    else if checked && s.acceptance.Outstanding? then
      (if t.api then AcceptanceRequired else Redirect(AcceptancePath(locale)))
    else if checked && s.acceptance.Unavailable? then AcceptanceUnavailable
    else if t.api then PassThrough
    else if s.auth.SignedIn? && t.signIn then Redirect(HomePath(locale, s.auth.prefersPortal))
    else if s.auth.SignedOut? && t.membersOnly then Redirect(LoginPath(locale))
    else Page
  }

  function Decide(path: string, s: Session): Decision {
    Judge(TraitsOf(path), LocaleOf(path), s)
  }

  /** Follow up to `n` redirects. */
  function Follow(path: string, s: Session, n: nat): string
    decreases n
  {
    if n > 0 && Decide(path, s).Redirect? then Follow(Decide(path, s).path, s, n - 1) else path
  }

  // ---- Reading paths ----

  lemma {:induction false} SkipLetters(piece: string, rest: string, part: string)
    requires '/' !in piece && StartsWith(part, "/")
    ensures Includes(piece + rest, part) <==> Includes(rest, part)
  {
    if piece == "" {
      assert piece + rest == rest;
    } else {
      SkipLetters(piece[1..], rest, part);
      assert (piece + rest)[1..] == piece[1..] + rest;
      assert (piece + rest)[0] == piece[0] && piece[0] in piece;
    }
  }

  /** A part that begins with a slash can only occur where a piece begins. */
  lemma SkipPiece(piece: string, rest: string, part: string)
    requires '/' !in piece && StartsWith(part, "/")
    ensures Includes("/" + piece + rest, part) <==> StartsWith("/" + piece + rest, part) || Includes(rest, part)
  {
    assert ("/" + piece + rest)[1..] == piece + rest;
    SkipLetters(piece, rest, part);
  }

  predicate IsLocale(locale: string) {
    locale == "en" || locale == "fr"
  }

  /** Behind a locale prefix only the rest of the path matters. */
  lemma LocalisedRoute(locale: string, rest: string)
    requires IsLocale(locale) && StartsWith(rest, "/")
    ensures RoutePath("/" + locale + rest) == rest && !IsPassThrough("/" + locale + rest)
  {
    var path := "/" + locale + rest;
    assert path[1] == locale[0] && path[3..] == rest;
    assert StartsWith(path, "/" + locale + "/");
  }

  predicate SlashLetter(part: string) {
    |part| >= 2 && part[0] == '/' && (part[1] == 'a' || part[1] == 'p')
  }

  lemma LocalisedIncludes(locale: string, rest: string, part: string)
    requires IsLocale(locale) && SlashLetter(part)
    ensures Includes("/" + locale + rest, part) <==> Includes(rest, part)
  {
    SkipPiece(locale, rest, part);
    assert ("/" + locale + rest)[1] == locale[0];
  }

  /** In a path of one or two pieces, a part occurs at the first or at the second. */
  lemma OnePiece(piece: string, part: string)
    requires '/' !in piece && SlashLetter(part)
    ensures Includes("/" + piece, part) <==> StartsWith("/" + piece, part)
  {
    SkipPiece(piece, "", part);
    assert "/" + piece + "" == "/" + piece;
  }

  lemma TwoPieces(a: string, b: string, part: string)
    requires '/' !in a && '/' !in b && SlashLetter(part)
    ensures Includes("/" + a + "/" + b, part) <==> StartsWith("/" + a + "/" + b, part) || StartsWith("/" + b, part)
  {
    SkipPiece(a, "/" + b, part);
    OnePiece(b, part);
    assert "/" + a + ("/" + b) == "/" + a + "/" + b;
  }

  // ---- Where redirects land ----

  /** A part of an app or portal route. */
  predicate AppOrPortal(part: string) {
    SlashLetter(part) && |part| >= 4 && part[2..4] in {"pp", "or"}
  }

  lemma AppAndPortalParts()
    ensures AppOrPortal("/app") && AppOrPortal("/portal") && AppOrPortal("/app/login") && AppOrPortal("/app/sign-in/")
  {
    assert "/app"[2..4] == "pp" && "/portal"[2..4] == "or";
    assert "/app/login"[2..4] == "pp" && "/app/sign-in/"[2..4] == "pp";
  }

  lemma AcceptanceHasNoParts(rest: string, part: string)
    requires rest == "/" + "documents" + "/" + "acceptance" && AppOrPortal(part)
    ensures !Includes(rest, part)
  {
    TwoPieces("documents", "acceptance", part);
    assert rest[1] == 'd' && ("/" + "acceptance")[2] == 'c' && part[2] == part[2..4][0];
  }

  lemma NoPublicGate(path: string)
    requires forall part :: AppOrPortal(part) ==> !Includes(path, part)
    ensures IsOpen(path)
  {
    AppAndPortalParts();
  }

  predicate IsOpen(path: string) {
    !Includes(path, "/app") && !IsPortalRoute(path) && !IsLogin(path) && !IsMagicSignIn(path)
  }

  lemma LocalisedNoPublicGate(locale: string, rest: string)
    requires IsLocale(locale) && forall part :: AppOrPortal(part) ==> !Includes(rest, part)
    ensures IsOpen("/" + locale + rest) && IsOpen(rest)
  {
    forall part | AppOrPortal(part) ensures !Includes("/" + locale + rest, part) {
      LocalisedIncludes(locale, rest, part);
    }
    NoPublicGate("/" + locale + rest);
    NoPublicGate(rest);
  }

  lemma NotApi(locale: string, rest: string)
    requires IsLocale(locale) && |rest| > 1 && rest[0] == '/' && rest[1] != 'a'
    ensures !IsApi("/" + locale + rest)
  {
    LocalisedRoute(locale, rest);
    assert "/api/"[1] == 'a';
  }

  /** A path that is neither of the API nor has app or portal parts is open to everyone. */
  lemma OpenTraits(locale: string, rest: string)
    requires IsLocale(locale) && |rest| > 1 && rest[0] == '/' && rest[1] != 'a'
    requires IsOpen("/" + locale + rest) && IsOpen(rest)
    ensures var t := TraitsOf("/" + locale + rest);
      !t.passThrough && !t.api && !t.gated && !t.signIn && !t.membersOnly
  {
    LocalisedRoute(locale, rest);
    NotApi(locale, rest);
  }

  lemma AcceptanceLands(locale: string, s: Session)
    requires IsLocale(locale)
    ensures Decide(AcceptancePath(locale), s) == Page
  {
    var rest := "/" + "documents" + "/" + "acceptance";
    forall part | AppOrPortal(part) ensures !Includes(rest, part) {
      AcceptanceHasNoParts(rest, part);
    }
    assert AcceptancePath(locale) == "/" + locale + rest;
    assert rest[1] == 'd';
    LocalisedNoPublicGate(locale, rest);
    OpenTraits(locale, rest);
  }

  lemma LoginIsLogin(locale: string)
    requires IsLocale(locale)
    ensures IsLogin(LoginPath(locale))
  {
    assert LoginPath(locale) == "/" + locale + "/app/login";
    LocalisedIncludes(locale, "/app/login", "/app/login");
  }

  lemma LoginIsNotPortal(locale: string, portal: string)
    requires IsLocale(locale) && SlashLetter(portal) && portal[1] == 'p'
    ensures !Includes(LoginPath(locale), portal)
  {
    var rest := "/" + "app" + "/" + "login";
    assert LoginPath(locale) == "/" + locale + rest;
    LocalisedIncludes(locale, rest, portal);
    TwoPieces("app", "login", portal);
  }

  lemma LoginLands(locale: string, s: Session)
    requires IsLocale(locale) && s.auth.SignedOut?
    ensures Decide(LoginPath(locale), s) == Page
  {
    var path, rest := LoginPath(locale), "/app/login";
    assert path == "/" + locale + rest;
    LocalisedRoute(locale, rest);
    assert rest[3] == 'p' && "/api/"[3] == 'i';
    LoginIsLogin(locale);
    LoginIsNotPortal(locale, "/portal");
    assert !IsAppRoute(path);
  }

  lemma HomeParts(locale: string, piece: string)
    requires IsLocale(locale) && piece in {"portal", "app"}
    ensures !IsLogin("/" + locale + "/" + piece) && !IsMagicSignIn("/" + locale + "/" + piece)
  {
    var rest := "/" + piece;
    assert "/" + locale + rest == "/" + locale + "/" + piece;
    LocalisedIncludes(locale, rest, "/app/login");
    LocalisedIncludes(locale, rest, "/app/sign-in/");
    OnePiece(piece, "/app/login");
    OnePiece(piece, "/app/sign-in/");
    assert |rest| <= 7;
  }

  lemma HomeLands(locale: string, s: Session)
    requires IsLocale(locale) && s.auth.SignedIn?
    ensures var d := Decide(HomePath(locale, s.auth.prefersPortal), s);
      d == Page || d == AcceptanceUnavailable || d == Redirect(AcceptancePath(locale))
  {
    var piece := if s.auth.prefersPortal then "portal" else "app";
    var path, rest := HomePath(locale, s.auth.prefersPortal), "/" + piece;
    assert path == "/" + locale + rest == "/" + locale + "/" + piece;
    LocalisedRoute(locale, rest);
    LocaleOfLocalised(locale, rest);
    HomeParts(locale, piece);
    assert !StartsWith(rest, "/api/") by {
      assert "/api/"[1] == 'a' && "/api/"[3] == 'i';
      assert rest[1] == piece[0] && (piece == "app" ==> rest[3] == 'p');
    }
  }

  lemma LocaleOfLocalised(locale: string, rest: string)
    requires IsLocale(locale) && StartsWith(rest, "/")
    ensures LocaleOf("/" + locale + rest) == locale
  {
    assert ("/" + locale + rest)[1..] == locale + rest;
    PieceBeforeSlash(locale, rest);
  }

  // ---- What is decided, read off the path ----

  predicate AtOrBelow(route: string, place: string) {
    route == place || StartsWith(route, place + "/")
  }

  /** Ten places, with all that is below them, by what it means to be there. */
  predicate OpenPlaces(at: string -> bool) {
    || at("/app/login") || at("/app/register") || at("/app/mfa")
    || at("/app/forgot-password") || at("/app/support") || at("/documents/acceptance")
    || at("/app/site-admin/documents") || at("/api/health") || at("/api/documents/acceptance")
    || at("/api/site-admin/documents/recovery")
  }

  /** Twelve more below which everything is open. */
  predicate OpenBelow(below: string -> bool) {
    || below("/app/reset-password/") || below("/app/sign-in/") || below("/app/invite/") || below("/api/auth/")
    || below("/api/mfa/") || below("/api/access-requests/") || below("/api/support/") || below("/api/public-tools/")
    || below("/api/brand-kit/") || below("/api/union-brand/") || below("/api/host-brand/") || below("/api/comms/")
  }

  /** What stays open while acceptances are outstanding. */
  predicate Exempt(route: string) {
    OpenPlaces(place => AtOrBelow(route, place)) || OpenBelow(prefix => StartsWith(route, prefix))
  }

  lemma EntriesOneByOne(covers: string -> bool)
    ensures (exists i :: 0 <= i < |ALLOWLIST| && covers(ALLOWLIST[i])) <==> OpenPlaces(covers) || OpenBelow(covers)
  {
    assert ALLOWLIST[0] == "/app/login" && ALLOWLIST[1] == "/app/register";
    assert ALLOWLIST[2] == "/app/mfa" && ALLOWLIST[3] == "/app/forgot-password";
    assert ALLOWLIST[4] == "/app/reset-password/" && ALLOWLIST[5] == "/app/sign-in/";
    assert ALLOWLIST[6] == "/app/invite/" && ALLOWLIST[7] == "/app/support";
    assert ALLOWLIST[8] == "/documents/acceptance" && ALLOWLIST[9] == "/app/site-admin/documents";
    assert ALLOWLIST[10] == "/api/auth/" && ALLOWLIST[11] == "/api/mfa/";
    assert ALLOWLIST[12] == "/api/health" && ALLOWLIST[13] == "/api/documents/acceptance";
    assert ALLOWLIST[14] == "/api/site-admin/documents/recovery" && ALLOWLIST[15] == "/api/access-requests/";
    assert ALLOWLIST[16] == "/api/support/" && ALLOWLIST[17] == "/api/public-tools/";
    assert ALLOWLIST[18] == "/api/brand-kit/" && ALLOWLIST[19] == "/api/union-brand/";
    assert ALLOWLIST[20] == "/api/host-brand/" && ALLOWLIST[21] == "/api/comms/";
  }

  lemma PlacesByKind(covers: string -> bool, at: string -> bool, slash: string -> bool)
    requires (forall e :: !slash(e) ==> covers(e) == at(e)) && !OpenPlaces(slash)
    ensures OpenPlaces(covers) <==> OpenPlaces(at)
  {
  }

  lemma BelowByKind(covers: string -> bool, below: string -> bool, slash: string -> bool)
    requires (forall e :: slash(e) ==> covers(e) == below(e)) && !OpenBelow(e => !slash(e))
    ensures OpenBelow(covers) <==> OpenBelow(below)
  {
  }

  lemma PlacesHaveNoSlash()
    ensures !OpenPlaces(e => EndsWithSlash(e))
  {
  }

  lemma FoldersHaveSlash()
    ensures !OpenBelow(e => !EndsWithSlash(e))
  {
  }

  /** The allowlist exempts exactly those routes. */
  lemma AllowlistExact(route: string)
    ensures Allowlisted(route) <==> Exempt(route)
  {
    var covers, slash := (e: string) => CoveredBy(route, e), (e: string) => EndsWithSlash(e);
    EntriesOneByOne(covers);
    PlacesHaveNoSlash();
    FoldersHaveSlash();
    PlacesByKind(covers, place => AtOrBelow(route, place), slash);
    BelowByKind(covers, prefix => StartsWith(route, prefix), slash);
  }

  /** Image and lab routes, which never get a locale. */
  predicate PassedThrough(path: string) {
    || AtOrBelow(path, "/opengraph-image") || AtOrBelow(path, "/twitter-image")
    || AtOrBelow(path, "/viewport-lab") || AtOrBelow(path, "/load-test-lab")
  }

  /** A path behind its locale, if it has one. */
  function Unprefixed(path: string): string {
    if StartsWith(path, "/en/") || StartsWith(path, "/fr/") then path[3..] else path
  }

  predicate UnderApi(path: string) {
    StartsWith(Unprefixed(path), "/api/")
  }

  function LocaleName(path: string): string {
    if AtOrBelow(path, "/fr") then "fr" else "en"
  }

  /** The portal, and the app except where one signs in, registers or recovers access. */
  predicate ForMembers(path: string) {
    || Includes(path, "/portal")
    || (Includes(path, "/app")
        && !Includes(path, "/app/login") && !Includes(path, "/app/register") && !Includes(path, "/app/invite/")
        && !Includes(path, "/app/forgot-password") && !Includes(path, "/app/reset-password/")
        && !Includes(path, "/app/sign-in/"))
  }

  /** What is closed while acceptances are outstanding. */
  predicate NeedsAcceptance(path: string) {
    var route := Unprefixed(path);
    && (Includes(route, "/app") || Includes(route, "/portal") || StartsWith(route, "/api/"))
    && !Exempt(route)
  }

  lemma LocaleExact(path: string)
    requires StartsWith(path, "/")
    ensures LocaleOf(path) == LocaleName(path)
  {
    UpToSlashExact(path[1..], "fr");
    assert path[0] == '/';
    assert AtOrBelow(path, "/fr") <==> "fr" <= path[1..] && (|path| > 3 ==> path[3] == '/');
  }

  /**
   * A signed-out visitor is sent to the login page from the members' paths, and from no other; image and lab routes
   * and the API are left to themselves.
   */
  lemma SignedOutExact(path: string, s: Session)
    requires StartsWith(path, "/") && s.auth.SignedOut?
    ensures Decide(path, s) ==
      if PassedThrough(path) || UnderApi(path) then PassThrough
      else if ForMembers(path) then Redirect("/" + LocaleName(path) + "/app/login")
      else Page
  {
    LocaleExact(path);
  }

  /** Whoever has a user id and a union, and acceptances outstanding or unknown, is stopped on the gated paths alone. */
  lemma AcceptanceGateExact(path: string, s: Session)
    requires StartsWith(path, "/") && s.auth.SignedIn?
    requires s.auth.hasUserId && s.auth.hasUnion && !s.acceptance.Nothing?
    ensures Decide(path, s) ==
      if PassedThrough(path) || !NeedsAcceptance(path) then Decide(path, s.(acceptance := Nothing))
      else if s.acceptance.Unavailable? then AcceptanceUnavailable
      else if UnderApi(path) then AcceptanceRequired
      else Redirect("/" + LocaleName(path) + "/documents/acceptance")
  {
    LocaleExact(path);
    AllowlistExact(RoutePath(path));
  }

  /** A signed-in visitor who is not stopped there is sent home from login and magic sign-in, and from no other path. */
  lemma SignedInExact(path: string, s: Session)
    requires StartsWith(path, "/") && s.auth.SignedIn?
    requires s.auth.hasUserId && s.auth.hasUnion ==> s.acceptance.Nothing?
    ensures Decide(path, s) ==
      if PassedThrough(path) || UnderApi(path) then PassThrough
      else if Includes(path, "/app/login") || Includes(path, "/app/sign-in/") then
        Redirect("/" + LocaleName(path) + if s.auth.prefersPortal then "/portal" else "/app")
      else Page
  {
    LocaleExact(path);
  }

  /**
   * Whoever follows the redirects to their end and is shown a page may see it: a signed-out visitor none of the
   * members' paths, and a member with outstanding acceptances nothing that is closed meanwhile.
   */
  lemma ShownPagesAreAllowed(path: string, s: Session)
    requires Decide(Follow(path, s, 2), s) == Page
    ensures var end := Follow(path, s, 2);
      && !PassedThrough(end) && !UnderApi(end)
      && (s.auth.SignedOut? ==> !ForMembers(end))
      && (s.auth.SignedIn? ==> !Includes(end, "/app/login") && !Includes(end, "/app/sign-in/"))
      && (s.auth.SignedIn? && s.auth.hasUserId && s.auth.hasUnion && !s.acceptance.Nothing? ==> !NeedsAcceptance(end))
  {
    AllowlistExact(RoutePath(Follow(path, s, 2)));
  }

  // ---- Main results ----

  /** The page a request is redirected to answers itself, or sends a new member on to the acceptance page. */
  lemma RedirectLands(path: string, s: Session)
    requires Decide(path, s).Redirect?
    ensures var d := Decide(Decide(path, s).path, s);
      d == Page || (s.auth.SignedIn? && (d == AcceptanceUnavailable || d == Redirect(AcceptancePath(LocaleOf(path)))))
    ensures Decide(AcceptancePath(LocaleOf(path)), s) == Page
  {
    var locale := LocaleOf(path);
    AcceptanceLands(locale, s);
    if s.auth.SignedIn? {
      HomeLands(locale, s);
    } else {
      LoginLands(locale, s);
    }
  }

  /** From any path, under any session, at most two redirects are followed. */
  lemma RedirectsTerminate(path: string, s: Session)
    ensures !Decide(Follow(path, s, 2), s).Redirect?
  {
    var d := Decide(path, s);
    if d.Redirect? {
      RedirectLands(path, s);
      assert Follow(path, s, 2) == Follow(d.path, s, 1);
      var d2 := Decide(d.path, s);
      if d2.Redirect? {
        assert Follow(d.path, s, 1) == Follow(d2.path, s, 0) == d2.path;
      }
    }
  }

  /** API requests are never redirected, whatever the session. */
  lemma ApiIsNeverRedirected(path: string, s: Session)
    requires IsApi(path)
    ensures !Decide(path, s).Redirect? && Decide(path, s) != Page
  {
  }

  /**
   * A signed-out visitor of a members' path ends on the login page; a member with outstanding acceptances, on a path
   * that is closed meanwhile, on the acceptance page.
   */
  lemma GuardedPagesLeadToTheirGate(path: string, s: Session)
    requires !PassedThrough(path) && !UnderApi(path)
    ensures var end := Follow(path, s, 2);
      && (s.auth.SignedOut? && ForMembers(path) ==> end == LoginPath(LocaleOf(path)) && Decide(end, s) == Page)
      && (s.auth.SignedIn? && s.auth.hasUserId && s.auth.hasUnion && s.acceptance.Outstanding?
          && NeedsAcceptance(path) ==>
            end == AcceptancePath(LocaleOf(path)) && Decide(end, s) == Page)
  {
    AllowlistExact(RoutePath(path));
    if Decide(path, s).Redirect? {
      RedirectLands(path, s);
      assert Follow(path, s, 2) == Follow(Decide(path, s).path, s, 1);
    }
  }

  /** The allowlist is closed under appending path segments. */
  lemma AllowlistClosed(path: string, segment: string)
    requires Allowlisted(path)
    ensures Allowlisted(path + "/" + segment)
  {
    var i :| 0 <= i < |ALLOWLIST| && CoveredBy(path, ALLOWLIST[i]);
    var entry, longer := ALLOWLIST[i], path + "/" + segment;
    assert path <= longer;
    if !EndsWithSlash(entry) && path == entry {
      assert entry + "/" <= longer;
    }
    assert CoveredBy(longer, entry);
  }
}
