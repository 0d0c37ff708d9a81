/**
 * The offline service worker: an event-driven machine over the browser's caches. Putting the locale marker is
 * fire-and-forget, so puts queue up behind navigations and complete, or fail, in order.
 */
module ServiceWorker {
  import opened JsValues

  const CACHE := "unionops-shell-v4"
  const PRECACHE: seq<string> := ["/en/", "/fr/", "/manifest.webmanifest", "/og-image.png"]
  const LAST_LOCALE_URL := "/__pwa_last_locale"

  datatype Locale = En | Fr

  /** A cached response body, or what a navigation is answered with. */
  datatype Body = Shell(url: string) | Marker(locale: Locale)
  datatype Answer = FromNetwork | Cached(body: Body) | NetworkError

  /** `pathname.split("/").filter(Boolean)[0]`: the first piece that is not empty. */
  function FirstPiece(path: string): string {
    if path == "" then "" else if path[0] == '/' then FirstPiece(path[1..]) else UpToSlash(path)
  }

  function LocaleFromPath(path: string): Option<Locale> {
    var piece := FirstPiece(path);
    if piece == "en" then Some(En) else if piece == "fr" then Some(Fr) else None
  }

  function ShellPath(locale: Locale): string {
    if locale.En? then "/en/" else "/fr/"
  }

  function Slashes(n: nat): string {
    if n == 0 then "" else "/" + Slashes(n - 1)
  }

  lemma {:induction false} FirstPieceExact(n: nat, piece: string, rest: string)
    requires '/' !in piece && (piece == "" ==> rest == "") && (rest != "" ==> rest[0] == '/')
    ensures FirstPiece(Slashes(n) + piece + rest) == piece
    decreases n
  {
    if n > 0 {
      assert (Slashes(n) + piece + rest)[1..] == Slashes(n - 1) + piece + rest;
      FirstPieceExact(n - 1, piece, rest);
    } else if piece != "" {
      assert Slashes(0) + piece + rest == piece + rest && (piece + rest)[0] == piece[0] && piece[0] in piece;
      UpToSlashExact(piece + rest, piece);
    }
  }

  /** Only a first piece of exactly "en" or "fr" is a locale, however many slashes come before it. */
  lemma LocaleFromPathExact(n: nat, piece: string, rest: string)
    requires '/' !in piece && (piece == "" ==> rest == "") && (rest != "" ==> rest[0] == '/')
    ensures LocaleFromPath(Slashes(n) + piece + rest) ==
      if piece == "en" then Some(En) else if piece == "fr" then Some(Fr) else None
  {
    FirstPieceExact(n, piece, rest);
  }

  /** The shell's own path says the locale it is the shell of. */
  lemma ShellPathHasItsLocale(locale: Locale)
    ensures LocaleFromPath(ShellPath(locale)) == Some(locale)
  {
    var piece := if locale.En? then "en" else "fr";
    var rest := ShellPath(locale)[1..];
    assert rest == piece + "/" && rest[0] == piece[0];
    PieceBeforeSlash(piece, "/");
    assert FirstPiece(rest) == UpToSlash(rest);
    assert FirstPiece(ShellPath(locale)) == FirstPiece(rest);
  }

  /** `puts` are the marker writes that navigations have started. */
  datatype State = State(caches: map<string, map<string, Body>>, puts: seq<Locale>)

  /** How the network answered a navigation. */
  datatype Network = Ok | NotOk | Failed

  datatype Event =
    | Install(stored: bool)                     // addAll succeeds as a whole or stores nothing
    | Activate
    | Navigate(path: string, network: Network)
    | OtherFetch
    | PutSettles(stored: bool)                  // the oldest started put completes or hits a quota

  function Entries(s: State): map<string, Body> {
    if CACHE in s.caches then s.caches[CACHE] else map[]
  }

  function Open(s: State): State {
    s.(caches := s.caches[CACHE := Entries(s)])
  }

  function AddAll(entries: map<string, Body>, urls: seq<string>): map<string, Body> {
    entries + map url | url in urls :: Shell(url)
  }

  function Step(s: State, e: Event): State {
    match e
    case Install(stored) =>
      if stored then s.(caches := s.caches[CACHE := AddAll(Entries(s), PRECACHE)]) else Open(s)
    case Activate => s.(caches := map name | name in s.caches && name == CACHE :: s.caches[name])
    case Navigate(path, network) =>
      if network.Failed? then Open(s)
      else if network.Ok? && LocaleFromPath(path).Some? then s.(puts := s.puts + [LocaleFromPath(path).value])
      else s
    case OtherFetch => s
    case PutSettles(stored) =>
      if s.puts == [] then s
      else if stored then
        s.(caches := s.caches[CACHE := Entries(s)[LAST_LOCALE_URL := Marker(s.puts[0])]], puts := s.puts[1..])
      else Open(s).(puts := s.puts[1..])
  }

  /** What `readLastLocale` finds. */
  function Remembered(s: State): Option<Locale> {
    if LAST_LOCALE_URL in Entries(s) && Entries(s)[LAST_LOCALE_URL].Marker?
    then Some(Entries(s)[LAST_LOCALE_URL].locale)
    else None
  }

  /** The locale of the shell that a failed navigation asks for. */
  function OfflineLocale(s: State, path: string): Locale {
    if LocaleFromPath(path).Some? then LocaleFromPath(path).value
    else if Remembered(s).Some? then Remembered(s).value
    else En
  }

  function Respond(s: State, path: string, network: Network): Answer {
    if !network.Failed? then FromNetwork
    else
      var shell := ShellPath(OfflineLocale(s, path));
      if shell in Entries(s) then Cached(Entries(s)[shell]) else NetworkError
  }

  function Run(s: State, es: seq<Event>): State {
    if es == [] then s else Step(Run(s, es[..|es| - 1]), es[|es| - 1])
  }

  // ---- Invariants ----

  /** The worker's own cache holds precached URLs and the marker, each under its own URL. */
  predicate Tidy(s: State) {
    forall url :: url in Entries(s) ==>
      if url == LAST_LOCALE_URL then Entries(s)[url].Marker? else url in PRECACHE && Entries(s)[url] == Shell(url)
  }

  lemma StepStaysTidy(s: State, e: Event)
    requires Tidy(s)
    ensures Tidy(Step(s, e))
    ensures e != Activate ==> Entries(s).Keys <= Entries(Step(s, e)).Keys
    ensures e == Activate ==> Entries(s) == Entries(Step(s, e))
  {
    MarkerIsNotPrecached();
  }

  lemma {:induction false} RunStaysTidy(s: State, es: seq<Event>)
    requires Tidy(s)
    ensures Tidy(Run(s, es))
  {
    if es != [] {
      RunStaysTidy(s, es[..|es| - 1]);
      StepStaysTidy(Run(s, es[..|es| - 1]), es[|es| - 1]);
    }
  }

  lemma MarkerIsNotPrecached()
    ensures LAST_LOCALE_URL !in PRECACHE
  {
    assert LAST_LOCALE_URL[1] == '_' && LAST_LOCALE_URL[2] == '_';
  }

  /** Activation leaves no other cache, and only whoever opens another cache could bring one back. */
  lemma {:induction false} NoStaleCaches(s: State, before: seq<Event>, after: seq<Event>)
    ensures Run(s, before + [Activate] + after).caches.Keys <= {CACHE}
  {
    var es := before + [Activate] + after;
    if after == [] {
      assert es[..|es| - 1] == before && es[|es| - 1] == Activate;
    } else {
      assert es[..|es| - 1] == before + [Activate] + after[..|after| - 1];
      NoStaleCaches(s, before, after[..|after| - 1]);
    }
  }

  lemma LastOf(es: seq<Event>, e: Event)
    ensures (es + [e])[..|es + [e]| - 1] == es && (es + [e])[|es + [e]| - 1] == e
  {
  }

  /** Installing stores the shells; no event removes them again. */
  lemma {:induction false} ShellsStay(s: State, before: seq<Event>, after: seq<Event>)
    requires Tidy(s)
    ensures var end := Run(s, before + [Install(true)] + after); forall url :: url in PRECACHE ==> url in Entries(end)
  {
    if after == [] {
      LastOf(before, Install(true));
      assert before + [Install(true)] + after == before + [Install(true)];
    } else {
      var init, last := before + [Install(true)] + after[..|after| - 1], after[|after| - 1];
      ShellsStay(s, before, after[..|after| - 1]);
      RunStaysTidy(s, init);
      StepStaysTidy(Run(s, init), last);
      LastOf(init, last);
      assert before + [Install(true)] + after == init + [last];
    }
  }

  /** An install that succeeds stores the two shells, the manifest and the image, and keeps the marker. */
  lemma InstallStores(s: State)
    ensures
      var entries := Entries(Step(s, Install(true)));
      var urls := {"/en/", "/fr/", "/manifest.webmanifest", "/og-image.png"};
      && entries.Keys == Entries(s).Keys + urls
      && forall url :: url in entries ==> entries[url] == if url in urls then Shell(url) else Entries(s)[url]
  {
    assert PRECACHE[0] == "/en/" && PRECACHE[1] == "/fr/";
    assert PRECACHE[2] == "/manifest.webmanifest" && PRECACHE[3] == "/og-image.png";
  }

  /** The network's answer is passed on; without one there is a cached shell, or an error when none was stored. */
  lemma AnswerExact(s: State, path: string, network: Network)
    ensures Respond(s, path, network) == FromNetwork <==> network == Ok || network == NotOk
    ensures Respond(s, path, network) == NetworkError <==>
      network == Failed && (if OfflineLocale(s, path).Fr? then "/fr/" else "/en/") !in Entries(s)
  {
  }

  /** A successful localised navigation starts a put behind those in flight; the oldest one settles first. */
  lemma PutsAreOrdered(s: State, path: string)
    ensures Step(s, Navigate(path, Ok)) ==
      if LocaleFromPath(path).None? then s else s.(puts := s.puts + [LocaleFromPath(path).value])
    ensures s.puts != [] ==>
      var s' := Step(s, PutSettles(true)); Remembered(s') == Some(s.puts[0]) && s'.puts == s.puts[1..]
  {
  }

  /** What fails stores nothing: a put is dropped, an install or an offline navigation leaves the cache as it was. */
  lemma FailuresStoreNothing(s: State, path: string)
    ensures var s' := Step(s, PutSettles(false));
      Entries(s') == Entries(s) && s'.puts == if s.puts == [] then [] else s.puts[1..]
    ensures var s' := Step(s, Install(false)); Entries(s') == Entries(s) && s'.puts == s.puts && CACHE in s'.caches
    ensures var s' := Step(s, Navigate(path, Failed));
      Entries(s') == Entries(s) && s'.puts == s.puts && CACHE in s'.caches
    ensures Step(s, Navigate(path, NotOk)) == s
  {
  }

  // ---- The remembered locale ----

  predicate LocalisedSuccess(e: Event) {
    e.Navigate? && e.network.Ok? && LocaleFromPath(e.path).Some?
  }

  /** The locale of the latest successful localised navigation. */
  function LatestLocale(es: seq<Event>): Option<Locale> {
    if es == [] then None
    else if LocalisedSuccess(es[|es| - 1]) then LocaleFromPath(es[|es| - 1].path)
    else LatestLocale(es[..|es| - 1])
  }

  predicate NoPutFails(es: seq<Event>) {
    forall e :: e in es ==> !(e.PutSettles? && !e.stored)
  }

  /** What will be remembered once the started puts have completed. */
  function Settled(s: State): Option<Locale> {
    if s.puts != [] then Some(s.puts[|s.puts| - 1]) else Remembered(s)
  }

  lemma StepSettles(s: State, e: Event)
    requires Tidy(s) && !(e.PutSettles? && !e.stored)
    ensures Settled(Step(s, e)) == if LocalisedSuccess(e) then LocaleFromPath(e.path) else Settled(s)
  {
    MarkerIsNotPrecached();
  }

  lemma {:induction false} RunSettles(s: State, es: seq<Event>)
    requires Tidy(s) && NoPutFails(es)
    ensures Settled(Run(s, es)) == if LatestLocale(es).Some? then LatestLocale(es) else Settled(s)
  {
    if es != [] {
      var init := es[..|es| - 1];
      RunSettles(s, init);
      RunStaysTidy(s, init);
      StepSettles(Run(s, init), es[|es| - 1]);
    }
  }

  /**
   * Once the started puts have completed, the remembered locale is that of the latest successful localised
   * navigation, over any run in which no put fails.
   */
  lemma RemembersLatest(s: State, es: seq<Event>)
    requires Tidy(s) && s.puts == [] && NoPutFails(es) && Run(s, es).puts == []
    ensures Remembered(Run(s, es)) == if LatestLocale(es).Some? then LatestLocale(es) else Remembered(s)
  {
    RunSettles(s, es);
  }

  /**
   * Once an install has succeeded, every navigation that fails is answered with the shell of its offline locale,
   * whatever happens to the locale marker.
   */
  lemma OfflineShellIsServed(s: State, before: seq<Event>, after: seq<Event>, path: string)
    requires Tidy(s)
    ensures var end := Run(s, before + [Install(true)] + after);
      Respond(end, path, Failed) == Cached(Shell(ShellPath(OfflineLocale(end, path))))
  {
    RunStaysTidy(s, before + [Install(true)] + after);
    ShellsStay(s, before, after);
    assert PRECACHE[0] == "/en/" && PRECACHE[1] == "/fr/";
    MarkerIsNotPrecached();
  }

  /**
   * That shell is of the path's own locale, else of the latest successful localised navigation, else English. Only
   * when the path names no locale must the started puts have completed without failure.
   */
  lemma OfflineAnswer(before: seq<Event>, after: seq<Event>, path: string)
    requires var es := before + [Install(true)] + after;
      LocaleFromPath(path).None? ==> NoPutFails(es) && Run(State(map[], []), es).puts == []
    ensures
      var es := before + [Install(true)] + after;
      var locale :=
        if LocaleFromPath(path).Some? then LocaleFromPath(path).value
        else if LatestLocale(es).Some? then LatestLocale(es).value
        else En;
      Respond(Run(State(map[], []), es), path, Failed) == Cached(Shell(ShellPath(locale)))
  {
    OfflineShellIsServed(State(map[], []), before, after, path);
    if LocaleFromPath(path).None? {
      RemembersLatest(State(map[], []), before + [Install(true)] + after);
    }
  }

  // ---- The worker ----

  class Worker {
    var caches: map<string, map<string, Body>>
    var puts: seq<Locale>

    function Model(): State
      reads this
    {
      State(caches, puts)
    }

    /** `caches.open`: creates the cache when it is missing. */
    method OpenCache() returns (cache: map<string, Body>)
      modifies this
      ensures Model() == Open(old(Model())) && cache == Entries(Model())
    {
      if CACHE !in caches {
        caches := caches[CACHE := map[]];
      }
      cache := caches[CACHE];
      assert caches == Open(old(Model())).caches;
    }

    method OnInstall(stored: bool)
      modifies this
      ensures Model() == Step(old(Model()), Install(stored))
    {
      var cache := OpenCache();
      if stored {
        caches := caches[CACHE := AddAll(cache, PRECACHE)];
      }
    }

    method OnActivate()
      modifies this
      ensures Model() == Step(old(Model()), Activate)
    {
      var keys := caches.Keys - {CACHE};
      while keys != {}
        invariant keys <= old(caches).Keys - {CACHE}
        invariant caches == map name | name in old(caches) && (name == CACHE || name in keys) :: old(caches)[name]
        invariant puts == old(puts)
        decreases keys
      {
        var key :| key in keys;
        caches := caches - {key};
        keys := keys - {key};
      }
    }

    method OnFetch(navigation: bool, path: string, network: Network) returns (answer: Option<Answer>)
      modifies this
      ensures Model() == Step(old(Model()), if navigation then Navigate(path, network) else OtherFetch)
      ensures answer == if navigation then Some(Respond(old(Model()), path, network)) else None
    {
      if !navigation {
        return None;
      }
      if network.Failed? {
        var shell := OfflineShell(path);
        return Some(shell);
      }
      var locale := LocaleFromPath(path);
      if locale.Some? && network.Ok? {
        puts := puts + [locale.value];
      }
      return Some(FromNetwork);
    }

    method OfflineShell(path: string) returns (answer: Answer)
      modifies this
      ensures Model() == Open(old(Model())) && answer == Respond(old(Model()), path, Failed)
    {
      var cache := OpenCache();
      var locale := LocaleFromPath(path);
      if locale.None? && LAST_LOCALE_URL in cache && cache[LAST_LOCALE_URL].Marker? {
        locale := Some(cache[LAST_LOCALE_URL].locale);
      }
      var shell := ShellPath(if locale.Some? then locale.value else En);
      return if shell in cache then Cached(cache[shell]) else NetworkError;
    }

    /** The tail of `rememberLocale` for the oldest put in flight. */
    method OnPut(stored: bool)
      requires puts != []
      modifies this
      ensures Model() == Step(old(Model()), PutSettles(stored))
    {
      var cache := OpenCache();
      if stored {
        caches := caches[CACHE := cache[LAST_LOCALE_URL := Marker(puts[0])]];
      }
      puts := puts[1..];
    }
  }
}
