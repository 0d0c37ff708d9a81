/** Website drafts: building one from partial values, and migrating whatever was stored to a version 2 draft. */
module WebsiteDraft {
  import opened JsValues

  /** Anything `JSON.parse` may return, and `undefined`. */
  datatype Json =
    | JUndefined | JNull
    | JBool(b: bool) | JNumber(n: real) | JString(s: string)
    | JArray(items: seq<Json>) | JObject(props: Props)

  /** What reading each property of an object yields: first those of events and drafts, then any others. */
  datatype Props = Props(
    title: Json, when: Json, location: Json, detail: Json,
    version: Json, updatedAt: Json, unionName: Json, heroText: Json, about1: Json, about2: Json,
    contactEmail: Json, officeAddress: Json, contactPhone: Json, officeHours: Json, ctaLabel: Json,
    layoutId: Json, siteLocale: Json, includePrivacyPage: Json, multiPage: Json, includeSiteQr: Json,
    events: Json, facebookUrl: Json, officersOverride: Json, officers: Json, heroArtId: Json, heroImageAlt: Json,
    others: map<string, Json>)

  const NO_PROPS := Props(
    JUndefined, JUndefined, JUndefined, JUndefined, JUndefined, JUndefined, JUndefined, JUndefined, JUndefined,
    JUndefined, JUndefined, JUndefined, JUndefined, JUndefined, JUndefined, JUndefined, JUndefined, JUndefined,
    JUndefined, JUndefined, JUndefined, JUndefined, JUndefined, JUndefined, JUndefined, JUndefined, map[])

  datatype Event = Event(title: string, when: string, location: Slot<string>, detail: Slot<string>)

  datatype Draft = Draft(
    version: nat, updatedAt: string,
    unionName: string, heroText: string, about1: string, about2: string,
    contactEmail: string, officeAddress: string, contactPhone: string, officeHours: string, ctaLabel: string,
    layoutId: string, siteLocale: string,
    includePrivacyPage: bool, multiPage: bool, includeSiteQr: bool,
    events: seq<Event>, facebookUrl: Slot<Option<string>>,
    officersOverride: bool, officers: seq<Json>, heroArtId: string, heroImageAlt: string)

  /** The argument of `emptyWebsiteDraft`; layout and locale are still unchecked. */
  datatype Partial = Partial(
    unionName: Slot<string>, heroText: Slot<string>, about1: Slot<string>, about2: Slot<string>,
    contactEmail: Slot<string>, officeAddress: Slot<string>, contactPhone: Slot<string>, officeHours: Slot<string>,
    ctaLabel: Slot<string>, layoutId: Json, siteLocale: Json,
    includePrivacyPage: Slot<bool>, multiPage: Slot<bool>, includeSiteQr: Slot<bool>,
    events: Slot<seq<Event>>, facebookUrl: Slot<Option<string>>,
    officersOverride: Slot<bool>, officers: Slot<seq<Json>>, heroArtId: Slot<string>, heroImageAlt: Slot<string>)

  const VERSION: nat := 2
  const DEFAULT_LAYOUT := "solidarity"
  const LAYOUTS: set<string> := {"solidarity", "bulletin", "hall"}

  function CoerceLayout(v: Json): string {
    if v.JString? && v.s in LAYOUTS then v.s else DEFAULT_LAYOUT
  }

  function CoerceLocale(v: Json): string {
    if v == JString("fr") then "fr" else "en"
  }

  function Default<T>(v: Slot<T>, d: T): T {
    if v.Value? then v.value else d
  }

  function EmptyDraft(p: Partial, now: string): Draft {
    Draft(
      VERSION, now,
      Default(p.unionName, ""), Default(p.heroText, ""), Default(p.about1, ""), Default(p.about2, ""),
      Default(p.contactEmail, ""), Default(p.officeAddress, ""), Default(p.contactPhone, ""),
      Default(p.officeHours, ""), Default(p.ctaLabel, ""),
      CoerceLayout(if p.layoutId in {JUndefined, JNull} then JString(DEFAULT_LAYOUT) else p.layoutId),
      CoerceLocale(p.siteLocale),
      Default(p.includePrivacyPage, true), Default(p.multiPage, false), Default(p.includeSiteQr, false),
      Default(p.events, []), Value(Default(p.facebookUrl, None)),
      Default(p.officersOverride, false), Default(p.officers, []), Default(p.heroArtId, "mesh"),
      Default(p.heroImageAlt, ""))
  }

  const NOTHING := Partial(
    Undefined, Undefined, Undefined, Undefined, Undefined, Undefined, Undefined, Undefined, Undefined,
    JUndefined, JUndefined,
    Undefined, Undefined, Undefined, Undefined, Undefined, Undefined, Undefined, Undefined, Undefined)

  // ---- Migration ----

  function StringOr(v: Json, d: string): string {
    if v.JString? then v.s else d
  }

  function BoolOr(v: Json, d: bool): bool {
    if v.JBool? then v.b else d
  }

  predicate Truthy(v: Json) {
    match v
    case JUndefined => false
    case JNull => false
    case JBool(b) => b
    case JNumber(n) => n != 0.0
    case JString(s) => s != ""
    case JArray(_) => true
    case JObject(_) => true
  }

  /** `typeof v === "object"` and not null. An array has none of the properties that are read. */
  predicate IsObject(v: Json) {
    v.JObject? || v.JArray?
  }

  function PropsOf(v: Json): Props
    requires IsObject(v)
  {
    if v.JObject? then v.props else NO_PROPS
  }

  function ToEvent(v: Json): Event {
    var o := if IsObject(v) then PropsOf(v) else NO_PROPS;
    Event(StringOr(o.title, ""), StringOr(o.when, ""),
          Value(StringOr(o.location, "")), Value(StringOr(o.detail, "")))
  }

  predicate Titled(e: Event) {
    Trim(e.title) != ""
  }

  function Objects(items: seq<Json>): seq<Json> {
    if items == [] then []
    else Objects(items[..|items| - 1]) + (if IsObject(items[|items| - 1]) then [items[|items| - 1]] else [])
  }

  function ToEvents(items: seq<Json>): seq<Event> {
    seq(|items|, i requires 0 <= i < |items| => ToEvent(items[i]))
  }

  function TitledOnly(es: seq<Event>): seq<Event> {
    if es == [] then []
    else TitledOnly(es[..|es| - 1]) + (if Titled(es[|es| - 1]) then [es[|es| - 1]] else [])
  }

  function MigrateEvents(v: Json): seq<Event> {
    if v.JArray? then TitledOnly(ToEvents(Objects(v.items))) else []
  }

  /** The properties that migration accepts, each checked for its type. */
  function ReadPartial(o: Props): Partial {
    Partial(
      Value(StringOr(o.unionName, "")), Value(StringOr(o.heroText, "")),
      Value(StringOr(o.about1, "")), Value(StringOr(o.about2, "")),
      Value(StringOr(o.contactEmail, "")), Value(StringOr(o.officeAddress, "")),
      Value(StringOr(o.contactPhone, "")), Value(StringOr(o.officeHours, "")),
      Value(StringOr(o.ctaLabel, "")),
      JString(CoerceLayout(o.layoutId)), JString(CoerceLocale(o.siteLocale)),
      Value(BoolOr(o.includePrivacyPage, true)), Value(BoolOr(o.multiPage, false)),
      Value(BoolOr(o.includeSiteQr, false)),
      Value(MigrateEvents(o.events)),
      Value(if o.facebookUrl.JString? then Some(o.facebookUrl.s) else None),
      Value(Truthy(o.officersOverride)),
      Value(if o.officers.JArray? then o.officers.items else []),
      Value(StringOr(o.heroArtId, "mesh")), Value(StringOr(o.heroImageAlt, "")))
  }

  function Migrate(raw: Json, now: string): Draft {
    EmptyDraft(if IsObject(raw) then ReadPartial(PropsOf(raw)) else NOTHING, now)
  }

  // ---- A draft as the JSON it is stored as ----

  function SlotJson(v: Slot<string>): Json {
    if v.Value? then JString(v.value) else JUndefined
  }

  function EventJson(e: Event): Json {
    JObject(NO_PROPS.(title := JString(e.title), when := JString(e.when),
                      location := SlotJson(e.location), detail := SlotJson(e.detail)))
  }

  function EventsJson(es: seq<Event>): seq<Json> {
    seq(|es|, i requires 0 <= i < |es| => EventJson(es[i]))
  }

  function FacebookJson(url: Slot<Option<string>>): Json {
    if url.Undefined? then JUndefined else if url.value.None? then JNull else JString(url.value.value)
  }

  function DraftJson(d: Draft): Json {
    JObject(NO_PROPS.(
      version := JNumber(d.version as real), updatedAt := JString(d.updatedAt),
      unionName := JString(d.unionName), heroText := JString(d.heroText),
      about1 := JString(d.about1), about2 := JString(d.about2),
      contactEmail := JString(d.contactEmail), officeAddress := JString(d.officeAddress),
      contactPhone := JString(d.contactPhone), officeHours := JString(d.officeHours), ctaLabel := JString(d.ctaLabel),
      layoutId := JString(d.layoutId), siteLocale := JString(d.siteLocale),
      includePrivacyPage := JBool(d.includePrivacyPage), multiPage := JBool(d.multiPage),
      includeSiteQr := JBool(d.includeSiteQr), events := JArray(EventsJson(d.events)),
      facebookUrl := FacebookJson(d.facebookUrl), officersOverride := JBool(d.officersOverride),
      officers := JArray(d.officers), heroArtId := JString(d.heroArtId), heroImageAlt := JString(d.heroImageAlt)))
  }

  // ---- Events ----

  predicate FullEvent(e: Event) {
    Titled(e) && e.location.Value? && e.detail.Value?
  }

  predicate HasPlaceAndDetail(e: Event) {
    e.location.Value? && e.detail.Value?
  }

  lemma {:induction false} TitledOnlyIsFull(es: seq<Event>)
    requires forall e :: e in es ==> HasPlaceAndDetail(e)
    ensures forall e :: e in TitledOnly(es) ==> FullEvent(e)
  {
    if es != [] {
      var n := |es| - 1;
      TitledOnlyIsFull(es[..n]);
      forall e | e in TitledOnly(es) ensures FullEvent(e) {
        assert e in TitledOnly(es[..n]) || (e == es[n] && Titled(e));
        assert HasPlaceAndDetail(es[n]);
      }
    }
  }

  lemma MigratedEventsAreFull(v: Json)
    ensures forall e :: e in MigrateEvents(v) ==> FullEvent(e)
  {
    if v.JArray? {
      TitledOnlyIsFull(ToEvents(Objects(v.items)));
    }
  }

  /** What one stored value contributes. */
  function Contribution(v: Json): seq<Event> {
    if IsObject(v) && Titled(ToEvent(v)) then [ToEvent(v)] else []
  }

  /** Exactly the objects whose title is a text that is not blank contribute an event. */
  lemma ContributionExact(v: Json)
    ensures Contribution(v) ==
      if v.JObject? && v.props.title.JString? && Trim(v.props.title.s) != "" then [ToEvent(v)] else []
  {
  }

  lemma LastEvent(es: seq<Event>, e: Event)
    ensures TitledOnly(es + [e]) == TitledOnly(es) + if Titled(e) then [e] else []
  {
    assert (es + [e])[..|es|] == es;
  }

  lemma LastItem(items: seq<Json>, v: Json)
    ensures MigrateEvents(JArray(items + [v])) == MigrateEvents(JArray(items)) + Contribution(v)
  {
    var longer := items + [v];
    assert longer[..|longer| - 1] == items && longer[|longer| - 1] == v;
    if IsObject(v) {
      assert Objects(longer) == Objects(items) + [v];
      assert ToEvents(Objects(items) + [v]) == ToEvents(Objects(items)) + [ToEvent(v)];
      LastEvent(ToEvents(Objects(items)), ToEvent(v));
    } else {
      assert Objects(longer) == Objects(items);
    }
  }

  /**
   * Migrated events are exactly the stored objects with a title that is not blank, in their stored order: `at`
   * lists where each one was.
   */
  ghost predicate TakenFrom(es: seq<Event>, items: seq<Json>, at: seq<nat>) {
    && |at| == |es|
    && (forall k :: 0 <= k < |at| ==> at[k] < |items| && Contribution(items[at[k]]) == [es[k]])
    && (forall j, k :: 0 <= j < k < |at| ==> at[j] < at[k])
    && (forall i :: 0 <= i < |items| && i !in at ==> Contribution(items[i]) == [])
  }

  lemma {:induction false} EventsKeepOrder(items: seq<Json>)
    ensures exists at :: TakenFrom(MigrateEvents(JArray(items)), items, at)
  {
    if items == [] {
      assert TakenFrom(MigrateEvents(JArray(items)), items, []);
    } else {
      var n := |items| - 1;
      EventsKeepOrder(items[..n]);
      LastItem(items[..n], items[n]);
      assert items == items[..n] + [items[n]];
      var at :| TakenFrom(MigrateEvents(JArray(items[..n])), items[..n], at);
      AppendTaken(MigrateEvents(JArray(items[..n])), items[..n], at, items[n]);
    }
  }

  lemma AppendTaken(es: seq<Event>, items: seq<Json>, at: seq<nat>, v: Json)
    requires TakenFrom(es, items, at)
    ensures exists at' :: TakenFrom(es + Contribution(v), items + [v], at')
  {
    var longer, added := items + [v], Contribution(v);
    if added == [] {
      assert es + added == es;
      assert TakenFrom(es, longer, at);
    } else {
      AppendOne(es, items, at, v, added[0]);
    }
  }

  lemma AppendOne(es: seq<Event>, items: seq<Json>, at: seq<nat>, v: Json, e: Event)
    requires TakenFrom(es, items, at) && Contribution(v) == [e]
    ensures exists at' :: TakenFrom(es + [e], items + [v], at')
  {
    var at' := at + [|items|];
    forall i | 0 <= i < |items + [v]| && i !in at' ensures Contribution((items + [v])[i]) == [] {
      assert at'[|at|] == |items|;
      assert i !in at;
    }
    assert TakenFrom(es + [e], items + [v], at');
  }

  lemma StoredEvent(e: Event)
    requires FullEvent(e)
    ensures Contribution(EventJson(e)) == [e]
  {
  }

  /** Stored events are read back unchanged exactly when each is full. */
  lemma {:induction false} StoredEvents(events: seq<Event>)
    ensures MigrateEvents(JArray(EventsJson(events))) == events <==> forall e :: e in events ==> FullEvent(e)
  {
    MigratedEventsAreFull(JArray(EventsJson(events)));
    if forall e :: e in events ==> FullEvent(e) {
      FullEventsReturn(events);
    }
  }

  lemma NextEventReturns(events: seq<Event>, e: Event)
    requires MigrateEvents(JArray(EventsJson(events))) == events && Contribution(EventJson(e)) == [e]
    ensures MigrateEvents(JArray(EventsJson(events + [e]))) == events + [e]
  {
    assert EventsJson(events + [e]) == EventsJson(events) + [EventJson(e)];
    LastItem(EventsJson(events), EventJson(e));
  }

  lemma {:induction false} FullEventsReturn(events: seq<Event>)
    requires forall e :: e in events ==> FullEvent(e)
    ensures MigrateEvents(JArray(EventsJson(events))) == events
  {
    if events != [] {
      var n := |events| - 1;
      FullEventsReturn(events[..n]);
      assert events[n] in events;
      StoredEvent(events[n]);
      NextEventReturns(events[..n], events[n]);
      assert events == events[..n] + [events[n]];
    }
  }

  // ---- Main results ----

  /** A draft that says everything: what the migration produces. */
  ghost predicate Canonical(d: Draft) {
    && d.version == VERSION && d.layoutId in LAYOUTS && d.siteLocale in {"en", "fr"}
    && d.facebookUrl.Value?
    && forall e :: e in d.events ==> FullEvent(e)
  }

  /** From any JSON-like value the migration makes a version 2 draft with only titled events. */
  lemma MigrationIsCanonical(raw: Json, now: string)
    ensures Canonical(Migrate(raw, now)) && Migrate(raw, now).updatedAt == now
  {
    if IsObject(raw) {
      MigratedEventsAreFull(PropsOf(raw).events);
    }
  }

  predicate TextOr(r: string, v: Json, default: string) {
    (v.JString? ==> r == v.s) && (!v.JString? ==> r == default)
  }

  predicate FlagOr(r: bool, v: Json, default: bool) {
    (v.JBool? ==> r == v.b) && (!v.JBool? ==> r == default)
  }

  /** Property by property: what has the right type is kept, and what is missing or mistyped gets its default. */
  lemma MigrationReads(o: Props, now: string)
    ensures var d := Migrate(JObject(o), now);
      && d.version == 2 && d.updatedAt == now
      && TextOr(d.unionName, o.unionName, "") && TextOr(d.heroText, o.heroText, "")
      && TextOr(d.about1, o.about1, "") && TextOr(d.about2, o.about2, "")
      && TextOr(d.contactEmail, o.contactEmail, "") && TextOr(d.officeAddress, o.officeAddress, "")
      && TextOr(d.contactPhone, o.contactPhone, "") && TextOr(d.officeHours, o.officeHours, "")
      && TextOr(d.ctaLabel, o.ctaLabel, "")
      && TextOr(d.heroArtId, o.heroArtId, "mesh") && TextOr(d.heroImageAlt, o.heroImageAlt, "")
      && FlagOr(d.includePrivacyPage, o.includePrivacyPage, true)
      && FlagOr(d.multiPage, o.multiPage, false) && FlagOr(d.includeSiteQr, o.includeSiteQr, false)
  {
  }

  lemma MigrationReadsOthers(o: Props, now: string)
    ensures var d := Migrate(JObject(o), now);
      && d.layoutId == (if o.layoutId == JString("bulletin") then "bulletin"
                        else if o.layoutId == JString("hall") then "hall" else "solidarity")
      && d.siteLocale == (if o.siteLocale == JString("fr") then "fr" else "en")
      && d.facebookUrl == Value(if o.facebookUrl.JString? then Some(o.facebookUrl.s) else None)
      && (d.officersOverride <==>
            o.officersOverride !in {JUndefined, JNull, JBool(false), JNumber(0.0), JString("")})
      && d.officers == (if o.officers.JArray? then o.officers.items else [])
  {
  }

  /** Anything that is no object has no properties to keep. */
  lemma OthersMigrateToDefaults(raw: Json, now: string)
    requires !raw.JObject?
    ensures Migrate(raw, now) == Migrate(JObject(NO_PROPS), now)
  {
  }

  /** A stored event keeps its texts, and one that is missing or mistyped becomes empty. */
  lemma EventReads(o: Props)
    ensures var e := ToEvent(JObject(o));
      && TextOr(e.title, o.title, "") && TextOr(e.when, o.when, "")
      && e.location.Value? && TextOr(e.location.value, o.location, "")
      && e.detail.Value? && TextOr(e.detail.value, o.detail, "")
  {
  }

  /** What storing and migrating does to a draft, field by field. */
  lemma StoredDraft(d: Draft, now: string)
    ensures Migrate(DraftJson(d), now) == d.(
      version := VERSION, updatedAt := now,
      layoutId := CoerceLayout(JString(d.layoutId)), siteLocale := CoerceLocale(JString(d.siteLocale)),
      facebookUrl := Value(Default(d.facebookUrl, None)),
      events := MigrateEvents(JArray(EventsJson(d.events))))
  {
  }

  /** A stored draft comes back with every field exactly when it is canonical. */
  lemma StoredDraftExact(d: Draft, now: string)
    ensures Migrate(DraftJson(d), now) == d.(updatedAt := now) <==> Canonical(d)
  {
    StoredDraft(d, now);
    StoredEvents(d.events);
  }

  /** Migrating twice is migrating once, up to the time stamp. */
  lemma MigrationIsIdempotent(raw: Json, earlier: string, now: string)
    ensures Migrate(DraftJson(Migrate(raw, earlier)), now) == Migrate(raw, earlier).(updatedAt := now)
  {
    MigrationIsCanonical(raw, earlier);
    StoredDraftExact(Migrate(raw, earlier), now);
  }
}
