/**
 * The Brand Kit store: a persistence protocol in which edits, imports and resets may arrive while an
 * asynchronous hydration is in flight. The state machine comes first, then what every run of it keeps,
 * and last the store itself, a class whose methods refine the machine's steps.
 */
module BrandStore {
  import opened JsValues
  import opened BrandKitPatches

  /** Helpers the store imports. Nothing is assumed about what they compute. */
  datatype Env = Env(
    normalise: Kit -> Kit,                               // normalizeBrandKit
    syncProfiles: Kit -> Kit,                            // syncBrandKitProfilesFromLocal
    alignPrimary: Kit -> Kit,                            // alignOpseuMembershipPrimary
    presetPatch: (string, Slot<Val>) -> Option<Patch>,   // trusted preset id and local number to its fields
    defaults: Kit,                                       // DEFAULT_BRAND_KIT
    hostPresetId: Option<string>)                        // resolveHostBrandDefaults().unionPresetId

  type TimerId = nat

  /** Where a hydration in flight is suspended. */
  datatype Hydration =
    | Loading(loaded: Option<Kit>)   // storage was read; the two adapter promises are still pending
    | AwaitingHost(base: Kit)        // first visit: the host lookup is pending

  datatype State = State(
    brandKit: Kit,
    hydrated: bool,
    hydrations: seq<Hydration>,      // several callers may hydrate; each call is on its own
    pendingPatch: Option<Patch>,
    pendingReplacement: Option<Kit>,
    pendingSave: Option<Kit>,
    saveTimer: Option<TimerId>,
    armed: set<TimerId>,             // callbacks the browser will still run
    nextTimer: TimerId,
    stored: Option<Kit>)             // the kit last handed to the adapter

  datatype Host = Host(
    primaryColor: Slot<Val>, secondaryColor: Slot<Val>, accentColor: Slot<Val>,
    localNumber: Slot<Val>, subText: Slot<Val>, divisionId: Slot<Val>, unionPresetId: Option<string>)

  datatype HostAnswer = HostOk(host: Host) | HostNotOk | HostThrew

  datatype Event =
    | Edit(patch: Patch, now: Val)
    | ApplyPreset(presetId: string, now: Val)
    | ApplyTheme(themePatch: Patch, now: Val)
    | Import(kit: Kit, now: Val)
    | Reset(now: Val)
    | TimerFires(id: TimerId)
    | PageHide
    | HydrateStarts
    | StorageAnswers(which: nat, now: Val)
    | HostAnswers(which: nat, answer: HostAnswer, now: Val)

  // ---- Patches and kits ----

  predicate TouchesProfiles(p: Patch) {
    Get(p.fields, ActiveProfileId).Value? || Get(p.fields, Profiles).Value?
  }

  function Patched(env: Env, current: Kit, p: Patch, now: Val): Kit {
    var updated := env.syncProfiles(env.normalise(Apply(current, p, now)));
    if TouchesProfiles(p) then env.alignPrimary(updated) else updated
  }

  function Imported(env: Env, kit: Kit, now: Val): Kit {
    env.normalise(kit.(fields := kit.fields[UpdatedAt := Value(now)]))
  }

  /** Factory defaults without the host-baked identity. */
  function FactoryKit(env: Env, now: Val): Kit {
    env.normalise(env.defaults.(fields := FactoryFields(env.defaults, now), local := FactoryLocal(env.defaults)))
  }

  function FactoryFields(d: Kit, now: Val): Fields {
    d.fields[UnionPresetId := Undefined][OpseuSectorId := Undefined][IdentityPackId := Undefined]
      [Profiles := Value(Items(["profile-local", "Local", "", ""]))][ActiveProfileId := Value(Text("profile-local"))]
      [UpdatedAt := Value(now)]
  }

  function FactoryLocal(d: Kit): LocalFields {
    d.local[LocalNumber := Value(Text(""))][SubText := Value(Text(""))][BargainingUnitCode := Undefined]
  }

  function HostPatch(host: Host, current: Kit): Patch {
    Patch(
      map[PrimaryColor := host.primaryColor, SecondaryColor := host.secondaryColor, AccentColor := host.accentColor],
      Present(
        map[LocalNumber := OrElse(host.localNumber, GetLocal(current.local, LocalNumber)),
            SubText := OrElse(host.subText, GetLocal(current.local, SubText))]
        + (if host.divisionId.Value? && host.divisionId != Value(Text("")) then map[DivisionId := host.divisionId]
           else map[])),
      Absent, Absent, Absent)
  }

  /** The kit after the host lookup, and whether a trusted host preset was applied and saved. */
  function HostKit(env: Env, base: Kit, answer: HostAnswer, now: Val): (Kit, bool) {
    var coloured := if answer.HostOk? then Patched(env, base, HostPatch(answer.host, base), now) else base;
    var presetId := match answer
      case HostOk(host) => host.unionPresetId
      case HostNotOk => None
      case HostThrew => env.hostPresetId;
    var preset :=
      if presetId.Some? then env.presetPatch(presetId.value, GetLocal(coloured.local, LocalNumber)) else None;
    if preset.Some? then (Patched(env, coloured, preset.value, now), true) else (coloured, false)
  }

  // ---- What a write makes of a kit ----

  /**
   * `after` is what the helpers make of `base` with the patches on it, each field with its last write; memberships are
   * aligned when a patch left a real value in one of the two profile fields.
   */
  ghost predicate Written(env: Env, after: Kit, base: Kit, ps: seq<Patch>, now: Val) {
    exists k :: Merged(k, base, ps, now) && after == Normalised(env, k, ps)
  }

  function Normalised(env: Env, k: Kit, ps: seq<Patch>): Kit {
    var kit := env.syncProfiles(env.normalise(k));
    if WritesValue(ps, ActiveProfileId) || WritesValue(ps, Profiles) then env.alignPrimary(kit) else kit
  }

  lemma QueueIsWritten(env: Env, base: Kit, ps: seq<Patch>, now: Val)
    requires ps != []
    ensures Written(env, Patched(env, base, QueueAll(ps).value, now), base, ps, now)
  {
    QueueMerges(base, ps, now);
    QueuedField(ps, ActiveProfileId);
    QueuedField(ps, Profiles);
    var k := Apply(base, QueueAll(ps).value, now);
    assert Patched(env, base, QueueAll(ps).value, now) == Normalised(env, k, ps);
  }

  lemma PatchIsWritten(env: Env, base: Kit, p: Patch, now: Val)
    ensures Written(env, Patched(env, base, p, now), base, [p], now)
  {
    assert [p][..0] == [] && QueueAll([p]) == Some(p);
    QueueIsWritten(env, base, [p], now);
  }

  ghost predicate SameLinksAndCanvas(a: Kit, b: Kit) {
    a.customLinks == b.customLinks && a.membershipUrls == b.membershipUrls && a.canvas == b.canvas
  }

  /** A host answer writes three colours, `undefined` included, and the local identity it gives; the rest stays. */
  ghost predicate ColouredBy(k: Kit, base: Kit, host: Host, now: Val) {
    SameLinksAndCanvas(k, base) && ColouredFields(k, base, host, now) && ColouredLocal(k, base, host)
  }

  ghost predicate ColouredFields(k: Kit, base: Kit, host: Host, now: Val) {
    forall f :: Get(k.fields, f) ==
      match f
      case PrimaryColor => host.primaryColor
      case SecondaryColor => host.secondaryColor
      case AccentColor => host.accentColor
      case UpdatedAt => Value(now)
      case _ => Get(base.fields, f)
  }

  ghost predicate ColouredLocal(k: Kit, base: Kit, host: Host) {
    forall f :: GetLocal(k.local, f) ==
      match f
      case LocalNumber => if host.localNumber.Value? then host.localNumber else GetLocal(base.local, f)
      case SubText => if host.subText.Value? then host.subText else GetLocal(base.local, f)
      case DivisionId =>
        if host.divisionId in {Undefined, Value(Text(""))} then GetLocal(base.local, f) else host.divisionId
      case _ => GetLocal(base.local, f)
  }

  /** The imported object, but for its time stamp. */
  ghost predicate ImportOf(k: Kit, kit: Kit, now: Val) {
    && SameLinksAndCanvas(k, kit) && k.local == kit.local
    && forall f :: Get(k.fields, f) == if f == UpdatedAt then Value(now) else Get(kit.fields, f)
  }

  /** The defaults without an identity: no preset, sector, pack, profile or local number. */
  ghost predicate FactoryOf(k: Kit, defaults: Kit, now: Val) {
    && SameLinksAndCanvas(k, defaults)
    && (forall f :: Get(k.fields, f) ==
          match f
          case UnionPresetId => Undefined
          case OpseuSectorId => Undefined
          case IdentityPackId => Undefined
          case Profiles => Value(Items(["profile-local", "Local", "", ""]))
          case ActiveProfileId => Value(Text("profile-local"))
          case UpdatedAt => Value(now)
          case _ => Get(defaults.fields, f))
    && (forall f :: GetLocal(k.local, f) ==
          match f
          case LocalNumber => Value(Text(""))
          case SubText => Value(Text(""))
          case BargainingUnitCode => Undefined
          case _ => GetLocal(defaults.local, f))
  }

  lemma HostPatchFields(base: Kit, host: Host, now: Val)
    ensures ColouredFields(Apply(base, HostPatch(host, base), now), base, host, now)
  {
  }

  lemma HostPatchLocal(base: Kit, host: Host, now: Val)
    ensures ColouredLocal(Apply(base, HostPatch(host, base), now), base, host)
  {
  }

  lemma HostPatchColours(base: Kit, host: Host, now: Val)
    ensures ColouredBy(Apply(base, HostPatch(host, base), now), base, host, now)
  {
    HostPatchFields(base, host, now);
    HostPatchLocal(base, host, now);
  }

  /**
   * The host lookup: an answer colours the kit, a failed one does not; then the trusted preset that the answer names,
   * or after an exception the one of the deployment, is written for the local number at hand. Saved means the latter.
   */
  lemma HostKitExact(env: Env, base: Kit, answer: HostAnswer, now: Val)
    ensures var (kit, saved) := HostKit(env, base, answer, now);
      exists coloured: Kit ::
        && (match answer
            case HostOk(host) =>
              exists k :: ColouredBy(k, base, host, now) && coloured == env.syncProfiles(env.normalise(k))
            case _ => coloured == base)
        && var id := match answer
             case HostOk(host) => host.unionPresetId
             case HostNotOk => None
             case HostThrew => env.hostPresetId;
           var preset :=
             if id.None? then None else env.presetPatch(id.value, GetLocal(coloured.local, LocalNumber));
           && (saved <==> preset.Some?)
           && (if preset.Some? then Written(env, kit, coloured, [preset.value], now) else kit == coloured)
  {
    var coloured := if answer.HostOk? then Patched(env, base, HostPatch(answer.host, base), now) else base;
    if answer.HostOk? {
      var k := Apply(base, HostPatch(answer.host, base), now);
      HostPatchColours(base, answer.host, now);
      assert coloured == env.syncProfiles(env.normalise(k));
    }
    var id := match answer
      case HostOk(host) => host.unionPresetId
      case HostNotOk => None
      case HostThrew => env.hostPresetId;
    var preset := if id.None? then None else env.presetPatch(id.value, GetLocal(coloured.local, LocalNumber));
    if preset.Some? {
      PatchIsWritten(env, coloured, preset.value, now);
    }
  }

  // ---- Saving ----

  function ClearTimeout(s: State): State {
    s.(armed := if s.saveTimer.Some? then s.armed - {s.saveTimer.value} else s.armed)
  }

  function Flush(s: State): State {
    var idle := ClearTimeout(s).(saveTimer := None, pendingSave := None);
    if s.pendingSave.Some? then idle.(stored := s.pendingSave) else idle
  }

  function Schedule(s: State, kit: Kit, immediate: bool): State {
    var s1 := ClearTimeout(s.(pendingSave := Some(kit)));
    if immediate then Flush(s1)
    else s1.(saveTimer := Some(s.nextTimer), armed := s1.armed + {s.nextTimer}, nextTimer := s.nextTimer + 1)
  }

  function ClearSaveTimer(s: State): State {
    ClearTimeout(s).(saveTimer := None, pendingSave := None)
  }

  // ---- Steps ----

  function PatchStep(env: Env, s: State, p: Patch, immediate: bool, now: Val): State {
    var updated := Patched(env, s.brandKit, p, now);
    if !s.hydrated then
      s.(pendingPatch := Some(Queue(s.pendingPatch, p)), brandKit := updated)
    else
      Schedule(s.(brandKit := updated), updated, immediate)
  }

  function PresetFor(env: Env, s: State, presetId: string): Option<Patch> {
    env.presetPatch(presetId, GetLocal(s.brandKit.local, LocalNumber))
  }

  function ReplaceStep(s: State, kit: Kit): State {
    ClearSaveTimer(s).(
      pendingPatch := None,
      pendingReplacement := if s.hydrated then None else Some(kit),
      brandKit := kit,
      stored := Some(kit))
  }

  /** The tail of `hydrate`, which runs without another await: replay the queue onto `base`. */
  function FinishHydration(env: Env, s: State, which: nat, base: Kit, now: Val): State
    requires which < |s.hydrations|
  {
    var replayed := if s.pendingReplacement.Some? then s.pendingReplacement.value else base;
    var s1 := s.(pendingReplacement := None, pendingPatch := None, hydrated := true,
                 hydrations := s.hydrations[..which] + s.hydrations[which + 1..]);
    if s.pendingPatch.Some? then
      var kit := Patched(env, replayed, s.pendingPatch.value, now);
      Schedule(s1, kit, true).(brandKit := kit)
    else
      s1.(brandKit := replayed)
  }

  predicate IsLoading(s: State, which: nat) {
    which < |s.hydrations| && s.hydrations[which].Loading?
  }

  predicate IsAwaitingHost(s: State, which: nat) {
    which < |s.hydrations| && s.hydrations[which].AwaitingHost?
  }

  function StorageStep(env: Env, s: State, which: nat, now: Val): State
    requires IsLoading(s, which)
  {
    var loaded := s.hydrations[which].loaded;
    if loaded.Some? then FinishHydration(env, s, which, loaded.value, now)
    else s.(hydrations := s.hydrations[which := AwaitingHost(s.brandKit)])
  }

  /** A trusted host preset is saved before the queue is replayed. */
  function HostApplied(env: Env, s: State, base: Kit, answer: HostAnswer, now: Val): State {
    if HostKit(env, base, answer, now).1 then Schedule(s, HostKit(env, base, answer, now).0, true) else s
  }

  lemma HostAppliedKeepsHydrations(env: Env, s: State, base: Kit, answer: HostAnswer, now: Val)
    ensures HostApplied(env, s, base, answer, now).hydrations == s.hydrations
  {
  }

  function HostStep(env: Env, s: State, which: nat, answer: HostAnswer, now: Val): State
    requires IsAwaitingHost(s, which)
  {
    var base := s.hydrations[which].base;
    FinishHydration(env, HostApplied(env, s, base, answer, now), which, HostKit(env, base, answer, now).0, now)
  }

  /** An event that cannot happen in `s` leaves it alone. */
  function Step(env: Env, s: State, e: Event): State {
    match e
    case Edit(p, now) => PatchStep(env, s, p, NeedsImmediateSave(p), now)
    case ApplyPreset(id, now) =>
      var preset := PresetFor(env, s, id);
      if preset.Some? then PatchStep(env, s, preset.value, true, now) else s
    case ApplyTheme(p, now) => PatchStep(env, s, p, false, now)
    case Import(kit, now) => ReplaceStep(s, Imported(env, kit, now))
    case Reset(now) => ReplaceStep(s, FactoryKit(env, now))
    case TimerFires(id) => if id in s.armed then Flush(s.(armed := s.armed - {id})) else s
    case PageHide => Flush(s)
    case HydrateStarts => s.(hydrations := s.hydrations + [Loading(s.stored)])
    case StorageAnswers(which, now) => if IsLoading(s, which) then StorageStep(env, s, which, now) else s
    case HostAnswers(which, answer, now) => if IsAwaitingHost(s, which) then HostStep(env, s, which, answer, now) else s
  }

  function Run(env: Env, s: State, es: seq<Event>): State
    decreases es
  {
    if es == [] then s else Run(env, Step(env, s, es[0]), es[1..])
  }

  /** The store as the module is loaded, over whatever storage holds. */
  function Initial(env: Env, stored: Option<Kit>): State {
    State(env.defaults, false, [], None, None, None, None, {}, 0, stored)
  }

  // ---- What each write does ----

  /** An edit or theme is on the kit in memory at once, before hydration too. */
  lemma EditIsWritten(env: Env, s: State, e: Event)
    requires e.Edit? || e.ApplyTheme?
    ensures var p := if e.Edit? then e.patch else e.themePatch;
      Written(env, Step(env, s, e).brandKit, s.brandKit, [p], e.now)
  {
    PatchIsWritten(env, s.brandKit, if e.Edit? then e.patch else e.themePatch, e.now);
  }

  /** A trusted preset writes its fields for the local number of the kit in memory; any other id does nothing. */
  lemma PresetIsWritten(env: Env, s: State, id: string, now: Val)
    ensures
      var s' := Step(env, s, ApplyPreset(id, now));
      var preset := env.presetPatch(id, GetLocal(s.brandKit.local, LocalNumber));
      if preset.Some? then Written(env, s'.brandKit, s.brandKit, [preset.value], now) else s' == s
  {
    var preset := env.presetPatch(id, GetLocal(s.brandKit.local, LocalNumber));
    if preset.Some? {
      PatchIsWritten(env, s.brandKit, preset.value, now);
    }
  }

  /** The patch names a field of the logo, the treatment or the preset. */
  predicate Urgent(p: Patch) {
    || UseOfficialLogo in p.fields || CustomLogoDataUrl in p.fields || OfficialLogoVariant in p.fields
    || IdentityPackId in p.fields || DesignTreatment in p.fields || UnionPresetId in p.fields
  }

  /** An edit of a hydrated store is stored at once exactly when it is urgent; otherwise it waits. */
  lemma ImmediateExact(env: Env, s: State, p: Patch, now: Val)
    requires s.hydrated
    ensures var s' := Step(env, s, Edit(p, now));
      && (s'.pendingSave.None? <==> Urgent(p))
      && (if Urgent(p) then s'.stored == Some(s'.brandKit)
          else s'.pendingSave == Some(s'.brandKit) && s'.stored == s.stored)
  {
    if TouchesLogo(p) {
      var f :| f in p.fields.Keys * LOGO_PATCH_KEYS;
      assert Urgent(p);
    } else {
      forall f | f in LOGO_PATCH_KEYS ensures f !in p.fields {
        assert f !in p.fields.Keys * LOGO_PATCH_KEYS;
      }
    }
  }

  /** A timer that was cleared does nothing, and the one that is armed stores what is pending. */
  lemma TimerExact(env: Env, s: State, id: TimerId)
    requires Sound(s)
    ensures var s' := Step(env, s, TimerFires(id));
      if s.saveTimer == Some(id) then s'.stored == s.pendingSave && s'.pendingSave.None? && s'.armed == {} else s' == s
  {
  }

  /** An import is shown and stored as it came, but for its time stamp, and normalised. */
  lemma ImportIsStored(env: Env, s: State, kit: Kit, now: Val)
    ensures var s' := Step(env, s, Import(kit, now));
      && (exists k :: ImportOf(k, kit, now) && s'.brandKit == env.normalise(k))
      && s'.stored == Some(s'.brandKit) && s'.pendingSave.None? && s'.pendingPatch.None?
  {
    assert ImportOf(kit.(fields := kit.fields[UpdatedAt := Value(now)]), kit, now);
  }

  /** A reset shows and stores the defaults without their identity, normalised. */
  lemma ResetIsStored(env: Env, s: State, now: Val)
    ensures var s' := Step(env, s, Reset(now));
      && (exists k :: FactoryOf(k, env.defaults, now) && s'.brandKit == env.normalise(k))
      && s'.stored == Some(s'.brandKit) && s'.pendingSave.None? && s'.pendingPatch.None?
  {
    var d := env.defaults;
    assert FactoryOf(d.(fields := FactoryFields(d, now), local := FactoryLocal(d)), d, now);
  }

  /** A hydration works on what was stored when it began, or, when that was nothing, on memory as it is then. */
  lemma HydrationReads(env: Env, s: State, which: nat, now: Val)
    requires which < |s.hydrations| && s.hydrations[which] == Loading(None)
    ensures var s' := Step(env, s, HydrateStarts);
      s'.hydrations == s.hydrations + [Loading(s.stored)] && s' == s.(hydrations := s'.hydrations)
    ensures var s' := Step(env, s, StorageAnswers(which, now));
      s'.hydrations[which] == AwaitingHost(s.brandKit) && s' == s.(hydrations := s'.hydrations)
  {
  }

  // ---- Invariants of every reachable state ----

  predicate TimersSound(s: State) {
    && s.armed == (if s.saveTimer.Some? then {s.saveTimer.value} else {})
    && (s.saveTimer.Some? ==> s.saveTimer.value < s.nextTimer)
    && (s.saveTimer.Some? <==> s.pendingSave.Some?)
  }

  /** Before the first hydration completes, storage is what it read, unless an import or reset was saved since. */
  predicate HydrationSound(s: State, h: Hydration) {
    match h
    case Loading(loaded) =>
      && (loaded.Some? ==> s.stored.Some?)
      && (!s.hydrated && s.pendingReplacement.None? ==> s.stored == loaded)
    case AwaitingHost(_) => !s.hydrated && s.pendingReplacement.None? ==> s.stored.None?
  }

  predicate Sound(s: State) {
    && TimersSound(s)
    && (s.hydrated ==> s.pendingPatch.None? && s.pendingReplacement.None?)
    && (!s.hydrated ==> s.pendingSave.None? && (s.pendingReplacement.Some? ==> s.stored == s.pendingReplacement))
    && (forall i :: 0 <= i < |s.hydrations| ==> HydrationSound(s, s.hydrations[i]))
  }

  lemma FinishSound(env: Env, s: State, which: nat, base: Kit, now: Val)
    requires TimersSound(s) && which < |s.hydrations|
    requires forall i :: 0 <= i < |s.hydrations| && s.hydrations[i].Loading? && s.hydrations[i].loaded.Some? ==>
      s.stored.Some?
    ensures Sound(FinishHydration(env, s, which, base, now))
  {
    var s' := FinishHydration(env, s, which, base, now);
    assert forall i :: 0 <= i < |s'.hydrations| ==> s'.hydrations[i] in s.hydrations;
  }

  lemma HydrationStepSound(env: Env, s: State, e: Event)
    requires Sound(s) && (e.StorageAnswers? || e.HostAnswers?)
    ensures Sound(Step(env, s, e))
  {
    assert forall i :: 0 <= i < |s.hydrations| ==> HydrationSound(s, s.hydrations[i]);
    if e.StorageAnswers? && IsLoading(s, e.which) && s.hydrations[e.which].loaded.Some? {
      FinishSound(env, s, e.which, s.hydrations[e.which].loaded.value, e.now);
    } else if e.HostAnswers? && IsAwaitingHost(s, e.which) {
      var base := s.hydrations[e.which].base;
      var applied, kit := HostApplied(env, s, base, e.answer, e.now), HostKit(env, base, e.answer, e.now).0;
      FinishSound(env, applied, e.which, kit, e.now);
    }
  }

  lemma StepSound(env: Env, s: State, e: Event)
    requires Sound(s)
    ensures Sound(Step(env, s, e))
  {
    var s' := Step(env, s, e);
    if e.StorageAnswers? || e.HostAnswers? {
      HydrationStepSound(env, s, e);
    } else {
      forall i | 0 <= i < |s'.hydrations| ensures HydrationSound(s', s'.hydrations[i]) {
        assert i < |s.hydrations| ==> HydrationSound(s, s.hydrations[i]);
      }
    }
  }

  lemma {:induction false} RunSound(env: Env, s: State, es: seq<Event>)
    requires Sound(s)
    ensures Sound(Run(env, s, es))
    decreases es
  {
    if es != [] {
      StepSound(env, s, es[0]);
      RunSound(env, Step(env, s, es[0]), es[1..]);
    }
  }

  /**
   * In every reachable state at most one save callback is armed and the timer variable names it, a timer is armed
   * exactly when a save is pending, and nothing is queued once hydrated nor scheduled before.
   */
  lemma ReachableSound(env: Env, stored: Option<Kit>, es: seq<Event>)
    ensures Sound(Run(env, Initial(env, stored), es))
  {
    RunSound(env, Initial(env, stored), es);
  }

  /** Memory agrees with storage: what is pending, or else what is stored, is the kit in memory. */
  predicate Agrees(s: State) {
    s.hydrated ==>
      if s.pendingSave.Some? then s.pendingSave.value == s.brandKit
      else s.stored.Some? ==> s.stored.value == s.brandKit
  }

  /** The steps that part memory from storage: both are ends of a hydration. */
  predicate Parts(env: Env, s: State, e: Event) {
    match e
    case StorageAnswers(which, _) =>
      // a later hydration brings back a kit other than the one in memory
      && s.hydrated && IsLoading(s, which) && s.hydrations[which].loaded.Some?
      && s.hydrations[which].loaded.value != s.brandKit
    case HostAnswers(which, answer, now) =>
      IsAwaitingHost(s, which) &&
      var (kit, saved) := HostKit(env, s.hydrations[which].base, answer, now);
      if s.hydrated then
        // a later hydration takes an unsaved host kit although something is stored or about to be
        !saved && (s.stored.Some? || s.pendingSave.Some?) && kit != s.brandKit
      else
        ClobbersReplacement(env, s, e)
    case _ => false
  }

  /** First visit: a trusted host preset is saved over an import or reset that memory then keeps. */
  predicate ClobbersReplacement(env: Env, s: State, e: Event) {
    && e.HostAnswers? && IsAwaitingHost(s, e.which) && !s.hydrated
    && s.pendingReplacement.Some? && s.pendingPatch.None?
    && var (kit, saved) := HostKit(env, s.hydrations[e.which].base, e.answer, e.now);
       saved && kit != s.pendingReplacement.value
  }

  /** A step keeps agreement if and only if it is not one of those. */
  lemma StepAgreesExact(env: Env, s: State, e: Event)
    requires Sound(s) && Agrees(s)
    ensures Agrees(Step(env, s, e)) <==> !Parts(env, s, e)
  {
  }

  predicate AgreesThroughout(env: Env, s: State, es: seq<Event>)
    decreases es
  {
    Agrees(s) && (es != [] ==> AgreesThroughout(env, Step(env, s, es[0]), es[1..]))
  }

  predicate NeverParts(env: Env, s: State, es: seq<Event>)
    decreases es
  {
    es != [] ==> !Parts(env, s, es[0]) && NeverParts(env, Step(env, s, es[0]), es[1..])
  }

  /** Over whole runs: memory and storage agree in every state exactly when no step parts them. */
  lemma {:induction false} RunAgreesExact(env: Env, s: State, es: seq<Event>)
    requires Sound(s) && Agrees(s)
    ensures AgreesThroughout(env, s, es) <==> NeverParts(env, s, es)
    decreases es
  {
    if es != [] {
      StepSound(env, s, es[0]);
      StepAgreesExact(env, s, es[0]);
      if Agrees(Step(env, s, es[0])) {
        RunAgreesExact(env, Step(env, s, es[0]), es[1..]);
      } else {
        assert !AgreesThroughout(env, Step(env, s, es[0]), es[1..]);
      }
    }
  }

  // ---- At most one hydration in flight ----

  /** Each hydration starts when none is in flight. Any number may follow each other, on a hydrated store too. */
  predicate OneAtATime(env: Env, s: State, es: seq<Event>)
    decreases es
  {
    es != [] ==> (es[0].HydrateStarts? ==> s.hydrations == []) && OneAtATime(env, Step(env, s, es[0]), es[1..])
  }

  /** An edit, import or reset. A preset id that is not trusted changes nothing. */
  predicate UserWrites(env: Env, s: State, e: Event) {
    e.Edit? || e.ApplyTheme? || e.Import? || e.Reset? || (e.ApplyPreset? && PresetFor(env, s, e.presetId).Some?)
  }

  /**
   * Whether the hydration in flight is out of date: it began on a hydrated store with a save still pending, or the
   * user wrote to the hydrated store since.
   */
  predicate Overtaken(env: Env, s: State, e: Event, before: bool) {
    if Step(env, s, e).hydrations == [] then false
    else if e.HydrateStarts? then s.hydrated && s.pendingSave.Some?
    else before || (s.hydrated && UserWrites(env, s, e))
  }

  /** An overtaken hydration ends, and what it brings back is not what the user last made of the kit. */
  predicate Forgets(env: Env, s: State, e: Event, overtaken: bool) {
    overtaken &&
    match e
    case StorageAnswers(which, _) =>
      IsLoading(s, which) && s.hydrations[which].loaded.Some? && s.hydrations[which].loaded.value != s.brandKit
    case HostAnswers(which, answer, now) =>
      IsAwaitingHost(s, which) &&
      var (kit, saved) := HostKit(env, s.hydrations[which].base, answer, now);
      !saved && kit != s.brandKit
    case _ => false
  }

  /**
   * A later hydration that is not overtaken holds exactly what is stored, with nothing pending; one that is
   * overtaken will find something stored or pending.
   */
  predicate OneInFlight(s: State, overtaken: bool) {
    && Sound(s) && |s.hydrations| <= 1
    && (overtaken ==> s.hydrated && s.hydrations != [] && (s.stored.Some? || s.pendingSave.Some?))
    && (s.hydrated && s.hydrations != [] && !overtaken ==>
          && s.pendingSave.None?
          && match s.hydrations[0]
             case Loading(loaded) => s.stored == loaded
             case AwaitingHost(_) => s.stored.None?)
  }

  lemma StepOneInFlight(env: Env, s: State, e: Event, overtaken: bool)
    requires OneInFlight(s, overtaken) && (e.HydrateStarts? ==> s.hydrations == [])
    ensures OneInFlight(Step(env, s, e), Overtaken(env, s, e, overtaken))
  {
    StepSound(env, s, e);
    HydrationsChange(env, s, e);
  }

  /** A hydration joins when it starts and leaves when it ends, which is the only way to become hydrated. */
  lemma HydrationsChange(env: Env, s: State, e: Event)
    ensures var s' := Step(env, s, e);
      || (|s'.hydrations| == |s.hydrations| + (if e.HydrateStarts? then 1 else 0) && s'.hydrated == s.hydrated)
      || (|s'.hydrations| + 1 == |s.hydrations| && s'.hydrated && !e.HydrateStarts?)
  {
    if e.HostAnswers? && IsAwaitingHost(s, e.which) {
      var base := s.hydrations[e.which].base;
      var applied := HostApplied(env, s, base, e.answer, e.now);
      FinishEndsOne(env, applied, e.which, HostKit(env, base, e.answer, e.now).0, e.now);
    } else if e.StorageAnswers? && IsLoading(s, e.which) && s.hydrations[e.which].loaded.Some? {
      FinishEndsOne(env, s, e.which, s.hydrations[e.which].loaded.value, e.now);
    }
  }

  lemma FinishEndsOne(env: Env, s: State, which: nat, base: Kit, now: Val)
    requires which < |s.hydrations|
    ensures var s' := FinishHydration(env, s, which, base, now); |s'.hydrations| + 1 == |s.hydrations| && s'.hydrated
  {
  }

  lemma PartsOneInFlight(env: Env, s: State, e: Event, overtaken: bool)
    requires OneInFlight(s, overtaken) && Agrees(s)
    ensures Parts(env, s, e) <==> ClobbersReplacement(env, s, e) || Forgets(env, s, e, overtaken)
  {
  }

  /** No host preset clobbers a replacement, and no overtaken hydration forgets what the user made. */
  predicate NeverForgets(env: Env, s: State, es: seq<Event>, overtaken: bool)
    decreases es
  {
    es != [] ==>
      && !ClobbersReplacement(env, s, es[0]) && !Forgets(env, s, es[0], overtaken)
      && NeverForgets(env, Step(env, s, es[0]), es[1..], Overtaken(env, s, es[0], overtaken))
  }

  lemma {:induction false} RunOneInFlight(env: Env, s: State, es: seq<Event>, overtaken: bool)
    requires OneInFlight(s, overtaken) && Agrees(s) && OneAtATime(env, s, es)
    ensures AgreesThroughout(env, s, es) <==> NeverForgets(env, s, es, overtaken)
    decreases es
  {
    if es != [] {
      var s', overtaken' := Step(env, s, es[0]), Overtaken(env, s, es[0], overtaken);
      StepAgreesExact(env, s, es[0]);
      PartsOneInFlight(env, s, es[0], overtaken);
      StepOneInFlight(env, s, es[0], overtaken);
      if Agrees(s') {
        RunOneInFlight(env, s', es[1..], overtaken');
      } else {
        assert !AgreesThroughout(env, s', es[1..]);
      }
    }
  }

  /**
   * With at most one hydration in flight, from any storage and however often the store is hydrated again: memory and
   * storage agree in every state exactly when no trusted host preset is saved over an import or reset, and no
   * hydration that was overtaken brings back another kit than the one in memory.
   */
  lemma OneAtATimeAgreesExact(env: Env, stored: Option<Kit>, es: seq<Event>)
    requires OneAtATime(env, Initial(env, stored), es)
    ensures AgreesThroughout(env, Initial(env, stored), es) <==> NeverForgets(env, Initial(env, stored), es, false)
  {
    RunOneInFlight(env, Initial(env, stored), es, false);
  }

  predicate NeverOvertaken(env: Env, s: State, es: seq<Event>)
    decreases es
  {
    es != [] ==> !Overtaken(env, s, es[0], false) && NeverOvertaken(env, Step(env, s, es[0]), es[1..])
  }

  predicate NeverClobbers(env: Env, s: State, es: seq<Event>)
    decreases es
  {
    es != [] ==> !ClobbersReplacement(env, s, es[0]) && NeverClobbers(env, Step(env, s, es[0]), es[1..])
  }

  lemma {:induction false} UndisturbedNeverForgets(env: Env, s: State, es: seq<Event>)
    requires NeverOvertaken(env, s, es)
    ensures NeverForgets(env, s, es, false) <==> NeverClobbers(env, s, es)
    decreases es
  {
    if es != [] {
      UndisturbedNeverForgets(env, Step(env, s, es[0]), es[1..]);
    }
  }

  /**
   * A hydration of a hydrated store that begins with no save pending, and during which the user writes nothing,
   * keeps agreement: then only a host preset saved over an import or reset can part memory from storage.
   */
  lemma UndisturbedRehydrationsAgree(env: Env, stored: Option<Kit>, es: seq<Event>)
    requires OneAtATime(env, Initial(env, stored), es) && NeverOvertaken(env, Initial(env, stored), es)
    ensures AgreesThroughout(env, Initial(env, stored), es) <==> NeverClobbers(env, Initial(env, stored), es)
  {
    OneAtATimeAgreesExact(env, stored, es);
    UndisturbedNeverForgets(env, Initial(env, stored), es);
  }

  function HydrationsStarted(es: seq<Event>): nat {
    if es == [] then 0 else (if es[0].HydrateStarts? then 1 else 0) + HydrationsStarted(es[1..])
  }

  lemma {:induction false} OnceIsUndisturbed(env: Env, s: State, es: seq<Event>)
    requires |s.hydrations| <= 1 && (s.hydrated ==> s.hydrations == [])
    requires HydrationsStarted(es) <= if s.hydrated || s.hydrations != [] then 0 else 1
    ensures OneAtATime(env, s, es) && NeverOvertaken(env, s, es)
    decreases es
  {
    if es != [] {
      HydrationsChange(env, s, es[0]);
      OnceIsUndisturbed(env, Step(env, s, es[0]), es[1..]);
    }
  }

  /** The special case of a page that hydrates once: that preset is then the only way to part them. */
  lemma SingleHydrationAgreesExact(env: Env, stored: Option<Kit>, es: seq<Event>)
    requires HydrationsStarted(es) <= 1
    ensures AgreesThroughout(env, Initial(env, stored), es) <==> NeverClobbers(env, Initial(env, stored), es)
  {
    OnceIsUndisturbed(env, Initial(env, stored), es);
    UndisturbedRehydrationsAgree(env, stored, es);
  }

  /** Whatever went wrong before, the next edit, preset, theme, import or reset restores agreement. */
  lemma UserActionsHeal(env: Env, s: State, e: Event)
    requires Sound(s) && s.hydrated && UserWrites(env, s, e)
    ensures Agrees(Step(env, s, e))
  {
  }

  /** Leaving the page writes the kit in memory, as does the debounce timer; an immediate edit needs neither. */
  lemma NothingLeftUnsaved(env: Env, s: State, e: Event)
    requires Sound(s) && Agrees(s) && s.hydrated
    requires || e.PageHide? || (e.TimerFires? && e.id in s.armed)
             || (e.Edit? && NeedsImmediateSave(e.patch)) || (e.ApplyPreset? && PresetFor(env, s, e.presetId).Some?)
    ensures var s' := Step(env, s, e);
      && s'.pendingSave.None? && s'.armed == {}
      && (s'.stored.None? || s'.stored.value == s'.brandKit)
      && (s.pendingSave.Some? || e.Edit? || e.ApplyPreset? ==> s'.stored == Some(s'.brandKit))
  {
  }

  /** An edit or a theme that may wait. */
  predicate Debounced(e: Event) {
    e.ApplyTheme? || (e.Edit? && !NeedsImmediateSave(e.patch))
  }

  /**
   * A burst of such edits writes nothing: each disarms the callback before it, and the one that remains will store
   * the kit as the last edit left it.
   */
  lemma {:induction false} BurstIsSavedOnce(env: Env, s: State, es: seq<Event>)
    requires Sound(s) && s.hydrated && es != [] && forall e :: e in es ==> Debounced(e)
    ensures var s' := Run(env, s, es);
      && s'.stored == s.stored && s'.hydrated
      && s'.pendingSave == Some(s'.brandKit)
      && s'.saveTimer.Some? && s'.armed == {s'.saveTimer.value}
      && Step(env, s', TimerFires(s'.saveTimer.value)).stored == Some(s'.brandKit)
    decreases es
  {
    StepSound(env, s, es[0]);
    assert Debounced(es[0]);
    if es[1..] == [] {
      assert Run(env, s, es) == Step(env, s, es[0]);
    } else {
      BurstIsSavedOnce(env, Step(env, s, es[0]), es[1..]);
    }
  }

  const IDENTITY_FIELDS: set<Field> :=
    {UnionPresetId, OpseuSectorId, IdentityPackId, Profiles, ActiveProfileId, UpdatedAt}

  const IDENTITY_LOCAL: set<LocalField> := {LocalNumber, SubText, BargainingUnitCode}

  /** Two sets of defaults that differ only in whom they are for. */
  predicate SameButIdentity(a: Kit, b: Kit) {
    && a.fields - IDENTITY_FIELDS == b.fields - IDENTITY_FIELDS
    && a.local - IDENTITY_LOCAL == b.local - IDENTITY_LOCAL
    && a.customLinks == b.customLinks && a.membershipUrls == b.membershipUrls && a.canvas == b.canvas
  }

  /** A factory reset leaves no trace of the host's baked-in identity: any other identity resets to the same kit. */
  lemma ResetForgetsIdentity(env: Env, other: Kit, s: State, now: Val)
    requires SameButIdentity(env.defaults, other)
    ensures Step(env, s, Reset(now)) == Step(env.(defaults := other), s, Reset(now))
  {
    var a, b := env.defaults, other;
    forall f | f !in IDENTITY_FIELDS
      ensures (f in a.fields <==> f in b.fields) && (f in a.fields ==> a.fields[f] == b.fields[f])
    {
      assert f in a.fields <==> f in a.fields - IDENTITY_FIELDS;
      assert f in b.fields <==> f in b.fields - IDENTITY_FIELDS;
      assert f in a.fields ==> (a.fields - IDENTITY_FIELDS)[f] == (b.fields - IDENTITY_FIELDS)[f];
    }
    forall f | f !in IDENTITY_LOCAL
      ensures (f in a.local <==> f in b.local) && (f in a.local ==> a.local[f] == b.local[f])
    {
      assert f in a.local <==> f in a.local - IDENTITY_LOCAL;
      assert f in b.local <==> f in b.local - IDENTITY_LOCAL;
      assert f in a.local ==> (a.local - IDENTITY_LOCAL)[f] == (b.local - IDENTITY_LOCAL)[f];
    }
    assert FactoryFields(a, now) == FactoryFields(b, now);
    assert FactoryLocal(a) == FactoryLocal(b);
  }

  /** The excluded run, for every import and every trusted host preset. */
  lemma ClobberedImport(env: Env, host: Host, imported: Kit, now: Val)
    ensures var es := [HydrateStarts, StorageAnswers(0, now), Import(imported, now), HostAnswers(0, HostOk(host), now)];
      var (hostKit, saved) := HostKit(env, env.defaults, HostOk(host), now);
      var end := Run(env, Initial(env, None), es);
      saved ==> end.hydrated && end.brandKit == Imported(env, imported, now)
                && end.pendingSave.None? && end.stored == Some(hostKit)
                && (hostKit != Imported(env, imported, now) ==> !Agrees(end))
  {
    var s0 := Initial(env, None);
    var s1 := Step(env, s0, HydrateStarts);
    var s2 := Step(env, s1, StorageAnswers(0, now));
    var s3 := Step(env, s2, Import(imported, now));
    var s4 := Step(env, s3, HostAnswers(0, HostOk(host), now));
    var es := [HydrateStarts, StorageAnswers(0, now), Import(imported, now), HostAnswers(0, HostOk(host), now)];
    RunTrace(env, es, [s0, s1, s2, s3, s4]);
    assert s3.hydrations == [AwaitingHost(env.defaults)];
  }

  /** A run by the states it goes through. */
  lemma {:induction false} RunTrace(env: Env, es: seq<Event>, ss: seq<State>)
    requires |ss| == |es| + 1 && forall i :: 0 <= i < |es| ==> ss[i + 1] == Step(env, ss[i], es[i])
    ensures Run(env, ss[0], es) == ss[|es|]
    ensures (forall i :: 0 <= i < |es| && es[i].HydrateStarts? ==> ss[i].hydrations == []) ==>
      OneAtATime(env, ss[0], es)
    decreases es
  {
    if es != [] {
      assert ss[1] == Step(env, ss[0], es[0]);
      forall i | 0 <= i < |es| - 1
        ensures ss[1..][i] == ss[i + 1] && es[1..][i] == es[i + 1]
        ensures ss[1..][i + 1] == Step(env, ss[1..][i], es[1..][i])
      {
        assert ss[i + 2] == Step(env, ss[i + 1], es[i + 1]);
      }
      RunTrace(env, es[1..], ss[1..]);
    }
  }

  // ---- No edit is lost by the first hydration ----

  /** What the user asked for so far: the last import or reset, and every patch since. */
  datatype Intent = Intent(replacement: Option<Kit>, edits: seq<Patch>)

  function Track(env: Env, s: State, e: Event, i: Intent): Intent {
    match e
    case Edit(p, _) => i.(edits := i.edits + [p])
    case ApplyTheme(p, _) => i.(edits := i.edits + [p])
    case ApplyPreset(id, _) =>
      var preset := PresetFor(env, s, id);
      if preset.Some? then i.(edits := i.edits + [preset.value]) else i
    case Import(kit, now) => Intent(Some(Imported(env, kit, now)), [])
    case Reset(now) => Intent(Some(FactoryKit(env, now)), [])
    case _ => i
  }

  function IntentOf(env: Env, s: State, es: seq<Event>, i: Intent): Intent
    decreases es
  {
    if es == [] then i else IntentOf(env, Step(env, s, es[0]), es[1..], Track(env, s, es[0], i))
  }

  predicate Queued(s: State, i: Intent) {
    !s.hydrated ==> s.pendingReplacement == i.replacement && s.pendingPatch == QueueAll(i.edits)
  }

  lemma StepQueued(env: Env, s: State, e: Event, i: Intent)
    requires Queued(s, i)
    ensures Queued(Step(env, s, e), Track(env, s, e, i))
  {
    var i' := Track(env, s, e, i);
    if |i'.edits| == |i.edits| + 1 {
      assert i'.edits[..|i.edits|] == i.edits;
    }
  }

  lemma {:induction false} RunQueued(env: Env, s: State, es: seq<Event>, i: Intent)
    requires Queued(s, i)
    ensures Queued(Run(env, s, es), IntentOf(env, s, es, i))
    decreases es
  {
    if es != [] {
      StepQueued(env, s, es[0], i);
      RunQueued(env, Step(env, s, es[0]), es[1..], Track(env, s, es[0], i));
    }
  }

  /** The kit the finishing step starts from: the last import or reset, else the loaded or the host kit. */
  function BaseKit(env: Env, s: State, e: Event, i: Intent): Kit
    requires e.StorageAnswers? ==> IsLoading(s, e.which) && s.hydrations[e.which].loaded.Some?
    requires e.HostAnswers? ==> IsAwaitingHost(s, e.which)
  {
    if i.replacement.Some? then i.replacement.value
    else if e.StorageAnswers? then s.hydrations[e.which].loaded.value
    else if e.HostAnswers? then HostKit(env, s.hydrations[e.which].base, e.answer, e.now).0
    else s.brandKit
  }

  /**
   * After any run before the first hydration completes, the completing step yields the base kit with every edit since
   * the last import or reset on it: what the normaliser receives has, in each non-canvas field, the last value
   * written there, and that kit is saved at once. Canvas survives exactly under `CanvasSurvivesQueue`.
   */
  lemma NoEditLost(env: Env, stored: Option<Kit>, es: seq<Event>, e: Event)
    requires !Run(env, Initial(env, stored), es).hydrated
    requires Step(env, Run(env, Initial(env, stored), es), e).hydrated
    ensures
      var s := Run(env, Initial(env, stored), es);
      var i := IntentOf(env, Initial(env, stored), es, Intent(None, []));
      var end := Step(env, s, e);
      && (e.StorageAnswers? || e.HostAnswers?)
      && var base := BaseKit(env, s, e, i);
         if i.edits == [] then end.brandKit == base
         else
           var queue := QueueAll(i.edits).value;
           var merged := Apply(base, queue, e.now);
           && LastWritesOver(merged, base, i.edits)
           && (merged.canvas == ApplyAll(base, i.edits, e.now).canvas <==> CanvasSurvivesQueue(base, i.edits))
           && end.brandKit == Patched(env, base, queue, e.now)
           && Written(env, end.brandKit, base, i.edits, e.now)
           && end.stored == Some(end.brandKit) && end.pendingSave.None?
  {
    var s0 := Initial(env, stored);
    var i := IntentOf(env, s0, es, Intent(None, []));
    RunQueued(env, s0, es, Intent(None, []));
    var s := Run(env, s0, es);
    assert e.StorageAnswers? || e.HostAnswers?;
    if i.edits != [] {
      var base := BaseKit(env, s, e, i);
      QueueKeepsLastWrites(base, i.edits, e.now);
      QueueAllCanvasExact(base, i.edits, e.now);
      QueueIsWritten(env, base, i.edits, e.now);
      CompletingStep(env, s, e, i);
    } else {
      assert s.pendingPatch.None?;
    }
  }

  /** The step that completes the first hydration replays the queue onto the base kit and saves the result. */
  lemma CompletingStep(env: Env, s: State, e: Event, i: Intent)
    requires !s.hydrated && Step(env, s, e).hydrated && Queued(s, i) && i.edits != []
    ensures
      var end := Step(env, s, e);
      && (e.StorageAnswers? ==> IsLoading(s, e.which) && s.hydrations[e.which].loaded.Some?)
      && (e.HostAnswers? ==> IsAwaitingHost(s, e.which)) && (e.StorageAnswers? || e.HostAnswers?)
      && end.brandKit == Patched(env, BaseKit(env, s, e, i), QueueAll(i.edits).value, e.now)
      && end.stored == Some(end.brandKit) && end.pendingSave.None?
  {
  }

  ghost predicate WrittenWithoutCanvas(env: Env, after: Kit, base: Kit, ps: seq<Patch>, now: Val) {
    exists k :: Merged(k, base, ps, now) && k.canvas == Undefined && after == Normalised(env, k, ps)
  }

  lemma TwoAreWritten(env: Env, kit: Kit, p: Patch, q: Patch, now: Val)
    requires p.canvas.Absent? && q.canvas.Absent?
    ensures WrittenWithoutCanvas(env, Patched(env, kit, Queue(Some(p), q), now), kit, [p, q], now)
  {
    var ps := [p, q];
    assert ps[..1] == [p] && [p][..0] == [] && ps[1] == q;
    assert QueueAll([]) == None;
    assert QueueAll([p]) == Some(p);
    assert QueueAll(ps) == Some(Queue(Some(p), q));
    assert LastCanvas([]) == Absent;
    assert LastCanvas([p]) == Absent;
    assert LastCanvas(ps) == Absent;
    QueueIsWritten(env, kit, ps, now);
  }

  /**
   * Two edits that never mention canvas, made before hydration: the kit that hydration normalises and saves
   * has no canvas, whatever canvas was stored.
   */
  lemma QueuedEditsClearStoredCanvas(env: Env, kit: Kit, p: Patch, q: Patch, now: Val)
    requires p.canvas.Absent? && q.canvas.Absent?
    ensures var es := [Edit(p, now), Edit(q, now), HydrateStarts, StorageAnswers(0, now)];
      && Run(env, Initial(env, Some(kit)), es).stored == Some(Patched(env, kit, Queue(Some(p), q), now))
      && WrittenWithoutCanvas(env, Patched(env, kit, Queue(Some(p), q), now), kit, [p, q], now)
  {
    var s0 := Initial(env, Some(kit));
    var s1 := Step(env, s0, Edit(p, now));
    var s2 := Step(env, s1, Edit(q, now));
    var s3 := Step(env, s2, HydrateStarts);
    var s4 := Step(env, s3, StorageAnswers(0, now));
    assert s2.pendingPatch == Some(Queue(Some(p), q)) && s3.hydrations == [Loading(Some(kit))];
    assert s4.stored == Some(Patched(env, kit, Queue(Some(p), q), now));
    RunTrace(env, [Edit(p, now), Edit(q, now), HydrateStarts, StorageAnswers(0, now)], [s0, s1, s2, s3, s4]);
    TwoAreWritten(env, kit, p, q, now);
  }

  /**
   * Two hydrations in flight: the one that ends last brings back the kit it read, so memory forgets an edit that
   * the first one had replayed and saved.
   */
  lemma OverlappingHydrationForgetsEdit(env: Env, kit: Kit, p: Patch, now: Val)
    ensures var es := [HydrateStarts, HydrateStarts, Edit(p, now), StorageAnswers(0, now), StorageAnswers(0, now)];
      var end := Run(env, Initial(env, Some(kit)), es);
      end.brandKit == kit && end.stored == Some(Patched(env, kit, p, now)) && end.pendingSave.None?
  {
    var s0 := Initial(env, Some(kit));
    var s1 := Step(env, s0, HydrateStarts);
    var s2 := Step(env, s1, HydrateStarts);
    var s3 := Step(env, s2, Edit(p, now));
    assert s2.hydrations == [Loading(Some(kit)), Loading(Some(kit))];
    assert s3.pendingPatch == Some(Queue(None, p)) && s3.pendingReplacement.None? && s3.hydrations == s2.hydrations;
    var s4 := Step(env, s3, StorageAnswers(0, now));
    assert s4.hydrations == [Loading(Some(kit))] && s4.pendingPatch.None? && s4.pendingReplacement.None?;
    assert s4.stored == Some(Patched(env, kit, p, now)) && s4.pendingSave.None?;
    OverlappingRun(env, s0, p, now);
  }

  lemma OverlappingRun(env: Env, s0: State, p: Patch, now: Val)
    ensures
      var es := [HydrateStarts, HydrateStarts, Edit(p, now), StorageAnswers(0, now), StorageAnswers(0, now)];
      var s3 := Step(env, Step(env, Step(env, s0, HydrateStarts), HydrateStarts), Edit(p, now));
      Run(env, s0, es) == Step(env, Step(env, s3, StorageAnswers(0, now)), StorageAnswers(0, now))
  {
    var s1 := Step(env, s0, HydrateStarts);
    var s2 := Step(env, s1, HydrateStarts);
    var s3 := Step(env, s2, Edit(p, now));
    var s4 := Step(env, s3, StorageAnswers(0, now));
    var s5 := Step(env, s4, StorageAnswers(0, now));
    var es := [HydrateStarts, HydrateStarts, Edit(p, now), StorageAnswers(0, now), StorageAnswers(0, now)];
    RunTrace(env, es, [s0, s1, s2, s3, s4, s5]);
  }

  /**
   * Never more than one hydration in flight: an edit that may wait, then a second hydration before the timer. The
   * hydration brings back the kit from before the edit, and the timer stores the edit that memory has forgotten.
   */
  lemma RehydrationForgetsEdit(env: Env, kit: Kit, p: Patch, now: Val)
    requires !NeedsImmediateSave(p)
    ensures
      var first := [HydrateStarts, StorageAnswers(0, now), Edit(p, now)];
      var es := first + [HydrateStarts, StorageAnswers(0, now), TimerFires(0)];
      var end := Run(env, Initial(env, Some(kit)), es);
      && OneAtATime(env, Initial(env, Some(kit)), es)
      && end.brandKit == kit && end.stored == Some(Patched(env, kit, p, now)) && end.pendingSave.None?
      && (Patched(env, kit, p, now) != kit ==> !Agrees(end))
  {
    var s0 := Initial(env, Some(kit));
    var s1 := Step(env, s0, HydrateStarts);
    var s2 := Step(env, s1, StorageAnswers(0, now));
    var s3 := Step(env, s2, Edit(p, now));
    var s4 := Step(env, s3, HydrateStarts);
    var s5 := Step(env, s4, StorageAnswers(0, now));
    var s6 := Step(env, s5, TimerFires(0));
    assert s2.hydrations == [] && s3.hydrations == [] && s4.hydrations == [Loading(Some(kit))];
    var first := [HydrateStarts, StorageAnswers(0, now), Edit(p, now)];
    RunTrace(env, first + [HydrateStarts, StorageAnswers(0, now), TimerFires(0)], [s0, s1, s2, s3, s4, s5, s6]);
  }

  // ---- When an edit survives later hydrations ----

  /** What storage will hold once no save is pending. */
  function Latest(s: State): Option<Kit> {
    if s.pendingSave.Some? then s.pendingSave else s.stored
  }

  /** The kit is in memory, and stored or about to be. */
  predicate Kept(s: State, kit: Kit) {
    s.hydrated && s.brandKit == kit && Latest(s) == Some(kit)
  }

  predicate KeptThroughout(env: Env, s: State, es: seq<Event>, kit: Kit)
    decreases es
  {
    Kept(s, kit) && (es != [] ==> KeptThroughout(env, Step(env, s, es[0]), es[1..], kit))
  }

  predicate UserRests(env: Env, s: State, es: seq<Event>)
    decreases es
  {
    es != [] ==> !UserWrites(env, s, es[0]) && UserRests(env, Step(env, s, es[0]), es[1..])
  }

  /** An overtaken hydration ends with another kit than the one in memory, saved or not. */
  predicate Loses(env: Env, s: State, e: Event, overtaken: bool) {
    overtaken &&
    match e
    case StorageAnswers(which, _) =>
      IsLoading(s, which) && s.hydrations[which].loaded.Some? && s.hydrations[which].loaded.value != s.brandKit
    case HostAnswers(which, answer, now) =>
      IsAwaitingHost(s, which) && HostKit(env, s.hydrations[which].base, answer, now).0 != s.brandKit
    case _ => false
  }

  predicate NeverLoses(env: Env, s: State, es: seq<Event>, overtaken: bool)
    decreases es
  {
    es != [] ==>
      && !Loses(env, s, es[0], overtaken)
      && NeverLoses(env, Step(env, s, es[0]), es[1..], Overtaken(env, s, es[0], overtaken))
  }

  lemma StepKeeps(env: Env, s: State, e: Event, overtaken: bool, kit: Kit)
    requires OneInFlight(s, overtaken) && Kept(s, kit) && !UserWrites(env, s, e)
    ensures Kept(Step(env, s, e), kit) <==> !Loses(env, s, e, overtaken)
  {
  }

  lemma {:induction false} RunKeeps(env: Env, s: State, es: seq<Event>, overtaken: bool, kit: Kit)
    requires OneInFlight(s, overtaken) && Kept(s, kit) && OneAtATime(env, s, es) && UserRests(env, s, es)
    ensures KeptThroughout(env, s, es, kit) <==> NeverLoses(env, s, es, overtaken)
    decreases es
  {
    if es != [] {
      var s' := Step(env, s, es[0]);
      StepKeeps(env, s, es[0], overtaken, kit);
      StepOneInFlight(env, s, es[0], overtaken);
      if Kept(s', kit) {
        RunKeeps(env, s', es[1..], Overtaken(env, s, es[0], overtaken), kit);
      } else {
        assert !KeptThroughout(env, s', es[1..], kit);
      }
    }
  }

  /** Whether the hydration in flight after a run is out of date. */
  function OvertakenAfter(env: Env, s: State, es: seq<Event>, overtaken: bool): bool
    decreases es
  {
    if es == [] then overtaken
    else OvertakenAfter(env, Step(env, s, es[0]), es[1..], Overtaken(env, s, es[0], overtaken))
  }

  lemma {:induction false} ReachableOneInFlight(env: Env, s: State, es: seq<Event>, overtaken: bool)
    requires OneInFlight(s, overtaken) && OneAtATime(env, s, es)
    ensures OneInFlight(Run(env, s, es), OvertakenAfter(env, s, es, overtaken))
    decreases es
  {
    if es != [] {
      StepOneInFlight(env, s, es[0], overtaken);
      ReachableOneInFlight(env, Step(env, s, es[0]), es[1..], Overtaken(env, s, es[0], overtaken));
    }
  }

  /**
   * What the user makes of the kit on a hydrated store stays in memory and in storage, until the user writes again,
   * exactly as long as no hydration that was overtaken ends with another kit. From any storage, after any run and
   * over any run with at most one hydration in flight.
   */
  lemma EditSurvivesExact(env: Env, stored: Option<Kit>, before: seq<Event>, e: Event, after: seq<Event>)
    requires OneAtATime(env, Initial(env, stored), before) && Run(env, Initial(env, stored), before).hydrated
    requires UserWrites(env, Run(env, Initial(env, stored), before), e)
    requires var s' := Step(env, Run(env, Initial(env, stored), before), e);
      OneAtATime(env, s', after) && UserRests(env, s', after)
    ensures
      var s := Run(env, Initial(env, stored), before);
      var overtaken := Overtaken(env, s, e, OvertakenAfter(env, Initial(env, stored), before, false));
      var s' := Step(env, s, e);
      KeptThroughout(env, s', after, s'.brandKit) <==> NeverLoses(env, s', after, overtaken)
  {
    var s := Run(env, Initial(env, stored), before);
    var overtaken := OvertakenAfter(env, Initial(env, stored), before, false);
    ReachableOneInFlight(env, Initial(env, stored), before, false);
    WriteIsKept(env, s, e);
    StepOneInFlight(env, s, e, overtaken);
    RunKeeps(env, Step(env, s, e), after, Overtaken(env, s, e, overtaken), Step(env, s, e).brandKit);
  }

  lemma WriteIsKept(env: Env, s: State, e: Event)
    requires Sound(s) && s.hydrated && UserWrites(env, s, e)
    ensures Kept(Step(env, s, e), Step(env, s, e).brandKit)
  {
  }

  lemma {:induction false} UndisturbedNeverLoses(env: Env, s: State, es: seq<Event>)
    requires NeverOvertaken(env, s, es)
    ensures NeverLoses(env, s, es, false)
    decreases es
  {
    if es != [] {
      UndisturbedNeverLoses(env, Step(env, s, es[0]), es[1..]);
    }
  }

  /**
   * In particular: an edit made while no hydration is in flight survives every later hydration, as long as each of
   * them begins with no save pending.
   */
  lemma UndisturbedEditSurvives(env: Env, stored: Option<Kit>, before: seq<Event>, e: Event, after: seq<Event>)
    requires OneAtATime(env, Initial(env, stored), before) && Run(env, Initial(env, stored), before).hydrated
    requires Run(env, Initial(env, stored), before).hydrations == []
    requires UserWrites(env, Run(env, Initial(env, stored), before), e)
    requires var s' := Step(env, Run(env, Initial(env, stored), before), e);
      OneAtATime(env, s', after) && UserRests(env, s', after) && NeverOvertaken(env, s', after)
    ensures var s' := Step(env, Run(env, Initial(env, stored), before), e);
      KeptThroughout(env, s', after, s'.brandKit)
  {
    var s := Run(env, Initial(env, stored), before);
    assert Step(env, s, e).hydrations == [];
    EditSurvivesExact(env, stored, before, e, after);
    UndisturbedNeverLoses(env, Step(env, s, e), after);
  }

  /**
   * On a first visit whose host lookup failed, a second hydration finds nothing stored and awaits the host again; an
   * edit that is saved meanwhile vanishes from memory and from storage when a trusted host preset arrives.
   */
  lemma LaterPresetLosesEdit(env: Env, p: Patch, host: Host, now: Val)
    requires NeedsImmediateSave(p)
    ensures
      var first := [HydrateStarts, StorageAnswers(0, now), HostAnswers(0, HostNotOk, now), HydrateStarts];
      var es := first + [StorageAnswers(0, now), Edit(p, now), HostAnswers(0, HostOk(host), now)];
      var (hostKit, saved) := HostKit(env, env.defaults, HostOk(host), now);
      var end := Run(env, Initial(env, None), es);
      && OneAtATime(env, Initial(env, None), es)
      && (saved ==> end.brandKit == hostKit && end.stored == Some(hostKit) && end.pendingSave.None?)
  {
    var s0 := Initial(env, None);
    var s1 := Step(env, s0, HydrateStarts);
    var s2 := Step(env, s1, StorageAnswers(0, now));
    var s3 := Step(env, s2, HostAnswers(0, HostNotOk, now));
    assert s3 == s0.(hydrated := true);
    var s4 := Step(env, s3, HydrateStarts);
    var s5 := Step(env, s4, StorageAnswers(0, now));
    var s6 := Step(env, s5, Edit(p, now));
    assert s6.hydrations == [AwaitingHost(env.defaults)];
    var s7 := Step(env, s6, HostAnswers(0, HostOk(host), now));
    var first := [HydrateStarts, StorageAnswers(0, now), HostAnswers(0, HostNotOk, now), HydrateStarts];
    var es := first + [StorageAnswers(0, now), Edit(p, now), HostAnswers(0, HostOk(host), now)];
    RunTrace(env, es, [s0, s1, s2, s3, s4, s5, s6, s7]);
  }

  lemma {:induction false} HydratedStays(env: Env, s: State, es: seq<Event>)
    requires s.hydrated
    ensures Run(env, s, es).hydrated
    decreases es
  {
    if es != [] {
      HydrationsChange(env, s, es[0]);
      HydratedStays(env, Step(env, s, es[0]), es[1..]);
    }
  }

  /**
   * As long as no hydration has completed, whatever storage and host answered, no timer, page hide or edit writes
   * to storage: only an import or a reset does.
   */
  lemma {:induction false} EarlyEditsAreNotSaved(env: Env, s: State, es: seq<Event>)
    requires Sound(s) && !Run(env, s, es).hydrated
    requires forall e :: e in es ==> !e.Import? && !e.Reset?
    ensures Run(env, s, es).stored == s.stored && Run(env, s, es).armed == {}
    decreases es
  {
    if es != [] {
      var s' := Step(env, s, es[0]);
      StepSound(env, s, es[0]);
      if s'.hydrated {
        HydratedStays(env, s', es[1..]);
      }
      assert !es[0].Import? && !es[0].Reset?;
      StepWritesNothing(env, s, es[0]);
      EarlyEditsAreNotSaved(env, s', es[1..]);
    }
  }

  lemma StepWritesNothing(env: Env, s: State, e: Event)
    requires Sound(s) && !Step(env, s, e).hydrated && !e.Import? && !e.Reset?
    ensures Step(env, s, e).stored == s.stored
  {
  }

  // ---- The store ----

  class Store {
    const env: Env
    var brandKit: Kit
    var hydrated: bool
    var hydrations: seq<Hydration>
    var pendingPatch: Option<Patch>
    var pendingReplacement: Option<Kit>
    var pendingSaveKit: Option<Kit>
    var saveBrandKitTimer: Option<TimerId>
    var armed: set<TimerId>
    var nextTimer: TimerId
    var stored: Option<Kit>

    function Model(): State
      reads this
    {
      State(brandKit, hydrated, hydrations, pendingPatch, pendingReplacement, pendingSaveKit,
            saveBrandKitTimer, armed, nextTimer, stored)
    }

    constructor (env: Env, stored: Option<Kit>)
      ensures this.env == env && Model() == Initial(env, stored) && Sound(Model()) && Agrees(Model())
    {
      this.env := env;
      brandKit, hydrated, hydrations := env.defaults, false, [];
      pendingPatch, pendingReplacement, pendingSaveKit := None, None, None;
      saveBrandKitTimer, armed, nextTimer := None, {}, 0;
      this.stored := stored;
    }

    method FlushPendingSave()
      modifies this
      ensures Model() == Flush(old(Model()))
    {
      if saveBrandKitTimer.Some? {
        armed := armed - {saveBrandKitTimer.value};
        saveBrandKitTimer := None;
      }
      var kit := pendingSaveKit;
      pendingSaveKit := None;
      if kit.Some? {
        stored := kit;
      }
    }

    method ScheduleSave(kit: Kit, immediate: bool)
      modifies this
      ensures Model() == Schedule(old(Model()), kit, immediate)
    {
      pendingSaveKit := Some(kit);
      if saveBrandKitTimer.Some? {
        armed := armed - {saveBrandKitTimer.value};
      }
      if immediate {
        FlushPendingSave();
        return;
      }
      saveBrandKitTimer := Some(nextTimer);
      armed := armed + {nextTimer};
      nextTimer := nextTimer + 1;
    }

    method DropPendingSave()
      modifies this
      ensures Model() == ClearSaveTimer(old(Model()))
    {
      if saveBrandKitTimer.Some? {
        armed := armed - {saveBrandKitTimer.value};
        saveBrandKitTimer := None;
      }
      pendingSaveKit := None;
    }

    method SetBrandKit(partial: Patch, now: Val)
      modifies this
      ensures Model() == Step(env, old(Model()), Edit(partial, now))
    {
      if !hydrated {
        pendingPatch := Some(Queue(pendingPatch, partial));
        brandKit := Patched(env, brandKit, partial, now);
        return;
      }
      var updated := Patched(env, brandKit, partial, now);
      brandKit := updated;
      ScheduleSave(updated, NeedsImmediateSave(partial));
    }

    method ApplyUnionPresetId(presetId: string, now: Val) returns (applied: bool)
      modifies this
      ensures Model() == Step(env, old(Model()), ApplyPreset(presetId, now))
      ensures applied <==> PresetFor(env, old(Model()), presetId).Some?
    {
      var preset := env.presetPatch(presetId, GetLocal(brandKit.local, LocalNumber));
      if preset.None? {
        return false;
      }
      var updated := Patched(env, brandKit, preset.value, now);
      if !hydrated {
        pendingPatch := Some(Queue(pendingPatch, preset.value));
        brandKit := updated;
        return true;
      }
      brandKit := updated;
      ScheduleSave(updated, true);
      return true;
    }

    method ApplyBrandTheme(themePatch: Patch, now: Val)
      modifies this
      ensures Model() == Step(env, old(Model()), ApplyTheme(themePatch, now))
    {
      if !hydrated {
        pendingPatch := Some(Queue(pendingPatch, themePatch));
        brandKit := Patched(env, brandKit, themePatch, now);
        return;
      }
      var updated := Patched(env, brandKit, themePatch, now);
      brandKit := updated;
      ScheduleSave(updated, false);
    }

    method ResetBrandKit(now: Val)
      modifies this
      ensures Model() == Step(env, old(Model()), Reset(now))
    {
      pendingPatch := None;
      DropPendingSave();
      var reset := FactoryKit(env, now);
      pendingReplacement := if hydrated then None else Some(reset);
      brandKit := reset;
      stored := Some(reset);
    }

    method ImportBrandKit(kit: Kit, now: Val)
      modifies this
      ensures Model() == Step(env, old(Model()), Import(kit, now))
    {
      pendingPatch := None;
      DropPendingSave();
      var updated := Imported(env, kit, now);
      pendingReplacement := if hydrated then None else Some(updated);
      brandKit := updated;
      stored := Some(updated);
    }

    method OnTimer(id: TimerId)
      requires id in armed
      modifies this
      ensures Model() == Step(env, old(Model()), TimerFires(id))
    {
      armed := armed - {id};
      FlushPendingSave();
    }

    method OnPageHide()
      modifies this
      ensures Model() == Step(env, old(Model()), PageHide)
    {
      FlushPendingSave();
    }

    /** `hydrate` up to its first await. */
    method Hydrate()
      modifies this
      ensures Model() == Step(env, old(Model()), HydrateStarts)
    {
      hydrations := hydrations + [Loading(stored)];
    }

    /** `hydrate` from the adapter's answers to the host lookup, or to its end when a kit was stored. */
    method OnStorageAnswer(which: nat, now: Val)
      requires IsLoading(Model(), which)
      modifies this
      ensures Model() == Step(env, old(Model()), StorageAnswers(which, now))
    {
      if hydrations[which].loaded.None? {
        hydrations := hydrations[which := AwaitingHost(brandKit)];
        return;
      }
      EndHydration(which, hydrations[which].loaded.value, now);
    }

    /** `hydrate` from the host's answer, or its failure, to the end. */
    method OnHostAnswer(which: nat, answer: HostAnswer, now: Val)
      requires IsAwaitingHost(Model(), which)
      modifies this
      ensures Model() == HostStep(env, old(Model()), which, answer, now)
    {
      HostAppliedKeepsHydrations(env, Model(), hydrations[which].base, answer, now);
      var kit := ApplyHostDefaults(hydrations[which].base, answer, now);
      EndHydration(which, kit, now);
    }

    /** The host's colours, then its preset; a trusted preset is saved at once. */
    method ApplyHostDefaults(base: Kit, answer: HostAnswer, now: Val) returns (kit: Kit)
      modifies this
      ensures kit == HostKit(env, base, answer, now).0
      ensures Model() == HostApplied(env, old(Model()), base, answer, now)
    {
      kit := base;
      var presetId := env.hostPresetId;
      match answer {
        case HostOk(host) =>
          kit := Patched(env, kit, HostPatch(host, kit), now);
          presetId := host.unionPresetId;
        case HostNotOk =>
          presetId := None;
        case HostThrew =>
      }
      if presetId.Some? {
        var preset := env.presetPatch(presetId.value, GetLocal(kit.local, LocalNumber));
        if preset.Some? {
          kit := Patched(env, kit, preset.value, now);
          ScheduleSave(kit, true);
        }
      }
    }

    method EndHydration(which: nat, base: Kit, now: Val)
      requires which < |hydrations|
      modifies this
      ensures Model() == FinishHydration(env, old(Model()), which, base, now)
    {
      var kit := base;
      if pendingReplacement.Some? {
        kit := pendingReplacement.value;
        pendingReplacement := None;
      }
      var queued := pendingPatch;
      pendingPatch := None;
      if queued.Some? {
        kit := Patched(env, kit, queued.value, now);
        ScheduleSave(kit, true);
      }
      brandKit, hydrated := kit, true;
      hydrations := hydrations[..which] + hydrations[which + 1..];
    }
  }
}
