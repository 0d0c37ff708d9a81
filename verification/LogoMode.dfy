/**
 * The logo picker of the Brand Kit: a printer from the chosen mode to a kit patch, and a parser from the kit back
 * to the mode that the picker shows as selected.
 */
module LogoMode {
  import opened JsValues

  datatype Variant = Lockup | Mark | SlitBlue | SlitWhite

  datatype Mode =
    | Official(variant: Variant)
    | UnionLockup | UnionMark | Platform | Custom | NoLogo

  /** Bundled logos of the selected union preset. */
  datatype PresetLogos = PresetLogos(lockup: string, mark: string, markOnDark: string, useOfficialPack: bool)

  /** Logos of the active identity pack, as far as variants go. */
  datatype OfficialLogos = OfficialLogos(selectable: seq<Variant>, hasMark: bool, hasSlits: bool)

  /** The kit fields that the picker reads and writes. */
  datatype LogoFields = LogoFields(
    useOfficialLogo: bool, officialLogoVariant: Slot<Variant>, customLogoDataUrl: Slot<string>, logoText: Slot<string>)

  /** A patch as the store merges it: a property that is present overwrites, even with `undefined`. */
  datatype LogoPatch = LogoPatch(
    useOfficialLogo: bool, officialLogoVariant: Prop<Variant>, customLogoDataUrl: Prop<string>, logoText: Prop<string>)

  function Overwrite<T>(current: Slot<T>, p: Prop<T>): Slot<T> {
    if p.Absent? then current else Read(p)
  }

  function Merge(k: LogoFields, p: LogoPatch): LogoFields {
    LogoFields(p.useOfficialLogo, Overwrite(k.officialLogoVariant, p.officialLogoVariant),
               Overwrite(k.customLogoDataUrl, p.customLogoDataUrl), Overwrite(k.logoText, p.logoText))
  }

  const PLATFORM_MARK := "/assets/unionops/logo-mark.svg"
  const PLATFORM_LOCKUP := "/assets/unionops/logo-lockup.svg"
  const PLATFORM_MARK_ON_DARK := "/assets/unionops/logo-mark-on-dark.svg"
  const PLATFORM_INTERLOCK := "/assets/unionops/logo-mark-interlock.png"

  predicate IsPlatformSrc(src: string) {
    Trim(src) in {PLATFORM_MARK, PLATFORM_LOCKUP, PLATFORM_MARK_ON_DARK, PLATFORM_INTERLOCK}
  }

  // ---- Preset and pack logos ----

  function NonEmpty(src: Slot<string>): Slot<string> {
    if src.Value? && Trim(src.value) != "" then Value(Trim(src.value)) else Undefined
  }

  datatype LogoPack = LogoPack(
    lockup: Slot<string>, mark: Slot<string>, markOnDark: Slot<string>, useOfficialPack: bool)

  /** Missing assets fall back to the platform's. */
  function ResolvePreset(logos: LogoPack): PresetLogos {
    var lockup := OrElse(NonEmpty(logos.lockup), Value(PLATFORM_LOCKUP)).value;
    var mark := OrElse(NonEmpty(logos.mark), Value(PLATFORM_MARK)).value;
    PresetLogos(
      lockup, mark,
      OrElse(NonEmpty(logos.markOnDark), Value(if mark == PLATFORM_MARK then PLATFORM_MARK_ON_DARK else mark)).value,
      logos.useOfficialPack && NonEmpty(logos.lockup).Value? && NonEmpty(logos.mark).Value?)
  }

  function Coerce(pack: Option<OfficialLogos>, v: Variant): Variant {
    if pack.None? then (if v.Mark? then Mark else Lockup)
    else if (v.Lockup? || v.Mark?) && v in pack.value.selectable then v
    else if (v.SlitBlue? || v.SlitWhite?) && pack.value.hasSlits then v
    else if pack.value.selectable != [] then pack.value.selectable[0] else Lockup
  }

  // ---- Parser ----

  /** What a trimmed logo source stands for. */
  function SrcMode(src: string, preset: Option<PresetLogos>): Mode {
    if IsPlatformSrc(src) then Platform
    else if preset.Some? && !preset.value.useOfficialPack then
      if src == preset.value.lockup && !IsPlatformSrc(preset.value.lockup) then UnionLockup
      else if src in {preset.value.mark, preset.value.markOnDark} && !IsPlatformSrc(preset.value.mark) then UnionMark
      else Custom
    else Custom
  }

  function ResolveMode(k: LogoFields, preset: Option<PresetLogos>, official: Option<OfficialLogos>): Mode {
    if k.useOfficialLogo && (preset.None? || preset.value.useOfficialPack) then
      Official(Coerce(official, if k.officialLogoVariant.Value? then k.officialLogoVariant.value else Lockup))
    else if k.customLogoDataUrl.Undefined? then Platform
    else if k.customLogoDataUrl.value == "" then Custom
    else SrcMode(Trim(k.customLogoDataUrl.value), preset)
  }

  function SelectedMode(k: LogoFields, preset: Option<PresetLogos>, official: Option<OfficialLogos>): Mode {
    var mode0 := ResolveMode(k, preset, official);
    var mode := if mode0.Official? then Official(Coerce(official, mode0.variant)) else mode0;
    if preset.Some? && !preset.value.useOfficialPack && (k.useOfficialLogo || mode.Official?) then
      ResolveMode(
        k.(useOfficialLogo := false, customLogoDataUrl := OrElse(k.customLogoDataUrl, Value(PLATFORM_MARK))),
        preset, None)
    else mode
  }

  // ---- Printer ----

  /** An upload worth keeping when the user picks "custom". */
  predicate KeepsUpload(k: LogoFields) {
    && k.customLogoDataUrl.Value? && Trim(k.customLogoDataUrl.value) != ""
    && !IsPlatformSrc(Trim(k.customLogoDataUrl.value))
  }

  function PatchFor(mode: Mode, k: LogoFields, preset: Option<PresetLogos>): LogoPatch {
    if mode.UnionLockup? && preset.Some? && !preset.value.useOfficialPack && !IsPlatformSrc(preset.value.lockup) then
      LogoPatch(false, Absent, Present(preset.value.lockup), Absent)
    else if mode.UnionMark? && preset.Some? && !preset.value.useOfficialPack && !IsPlatformSrc(preset.value.mark) then
      LogoPatch(false, Absent, Present(preset.value.mark), Absent)
    else if mode.Platform? then LogoPatch(false, Absent, Present(PLATFORM_MARK), Absent)
    else if mode.Official? then LogoPatch(true, Present(mode.variant), PresentUndefined, Absent)
    else if mode.Custom? then
      LogoPatch(false, Absent, Present(if KeepsUpload(k) then Trim(k.customLogoDataUrl.value) else ""), Absent)
    else
      var text := if k.logoText.Value? then Trim(k.logoText.value) else "";
      LogoPatch(false, Absent, Present(PLATFORM_MARK), Present(if text == "" then "UO" else text))
  }

  // ---- Options offered ----

  /** The preset ships its own lockup and mark, rather than platform fallbacks. */
  predicate HasAttachedLogos(logos: LogoPack) {
    && NonEmpty(logos.lockup).Value? && NonEmpty(logos.mark).Value?
    && !IsPlatformSrc(NonEmpty(logos.lockup).value) && !IsPlatformSrc(NonEmpty(logos.mark).value)
  }

  function PresetOf(logos: Option<LogoPack>): Option<PresetLogos> {
    if logos.None? then None else Some(ResolvePreset(logos.value))
  }

  predicate Offered(mode: Mode, logos: Option<LogoPack>, official: Option<OfficialLogos>) {
    var preset := PresetOf(logos);
    match mode
    case Official(v) =>
      && preset.Some? && preset.value.useOfficialPack && official.Some?
      && v in official.value.selectable && (v.Lockup? || (v.Mark? && official.value.hasMark))
    case UnionLockup => preset.Some? && HasAttachedLogos(logos.value) && !preset.value.useOfficialPack
    case UnionMark => preset.Some? && HasAttachedLogos(logos.value) && !preset.value.useOfficialPack
    case Platform => true
    case Custom => true
    case NoLogo => false
  }

  // ---- Round trip ----

  lemma PresetIsTrimmed(logos: LogoPack)
    ensures var p := ResolvePreset(logos);
      Trim(p.lockup) == p.lockup && Trim(p.mark) == p.mark && Trim(p.markOnDark) == p.markOnDark
  {
    ConstantsAreTrimmed();
    forall s: Slot<string> | NonEmpty(s).Value? ensures Trim(NonEmpty(s).value) == NonEmpty(s).value {
      TrimIdempotent(s.value);
    }
  }

  lemma NoEdgeSpace(s: string)
    requires s != "" && !IsSpace(s[0]) && !IsSpace(s[|s| - 1])
    ensures Trim(s) == s
  {
  }

  lemma ConstantsAreTrimmed()
    ensures Trim(PLATFORM_MARK) == PLATFORM_MARK && Trim(PLATFORM_LOCKUP) == PLATFORM_LOCKUP
    ensures Trim(PLATFORM_MARK_ON_DARK) == PLATFORM_MARK_ON_DARK && Trim(PLATFORM_INTERLOCK) == PLATFORM_INTERLOCK
  {
    NoEdgeSpace(PLATFORM_MARK);
    NoEdgeSpace(PLATFORM_LOCKUP);
    NoEdgeSpace(PLATFORM_MARK_ON_DARK);
    NoEdgeSpace(PLATFORM_INTERLOCK);
  }

  /** The kept upload is itself one of the preset's assets, which the parser recognises first. */
  predicate UploadIsPresetAsset(k: LogoFields, preset: Option<PresetLogos>) {
    KeepsUpload(k) && preset.Some? && !preset.value.useOfficialPack &&
    var src := Trim(k.customLogoDataUrl.value);
    || src == preset.value.lockup
    || (src in {preset.value.mark, preset.value.markOnDark} && !IsPlatformSrc(preset.value.mark))
  }

  /** When choosing an option and reading the kit back gives the same option. */
  predicate RoundTrips(mode: Mode, k: LogoFields, preset: Option<PresetLogos>) {
    match mode
    case UnionMark => preset.Some? && preset.value.mark != preset.value.lockup
    case Custom => !UploadIsPresetAsset(k, preset)
    case _ => true
  }

  /** A kit that shows a source shows what the source stands for. */
  lemma ShowsSrc(k: LogoFields, src: string, preset: Option<PresetLogos>, official: Option<OfficialLogos>)
    requires !k.useOfficialLogo && k.customLogoDataUrl == Value(src) && src != "" && Trim(src) == src
    ensures SelectedMode(k, preset, official) == SrcMode(src, preset)
  {
  }

  lemma CustomRoundTrip(k: LogoFields, preset: Option<PresetLogos>, official: Option<OfficialLogos>)
    ensures SelectedMode(Merge(k, PatchFor(Custom, k, preset)), preset, official) == Custom
       <==> !UploadIsPresetAsset(k, preset)
  {
    if KeepsUpload(k) {
      var src := Trim(k.customLogoDataUrl.value);
      TrimIdempotent(k.customLogoDataUrl.value);
      ShowsSrc(Merge(k, PatchFor(Custom, k, preset)), src, preset, official);
    }
  }

  lemma PlatformRoundTrip(k: LogoFields, preset: Option<PresetLogos>, official: Option<OfficialLogos>)
    ensures SelectedMode(Merge(k, PatchFor(Platform, k, preset)), preset, official) == Platform
  {
    ConstantsAreTrimmed();
    ShowsSrc(Merge(k, PatchFor(Platform, k, preset)), PLATFORM_MARK, preset, official);
  }

  /** "None" is not offered: choosing it leaves the platform mark selected, with a monogram that is never empty. */
  lemma NoLogoFallsBackToPlatform(k: LogoFields, preset: Option<PresetLogos>, official: Option<OfficialLogos>)
    ensures var k' := Merge(k, PatchFor(NoLogo, k, preset));
      SelectedMode(k', preset, official) == Platform && k'.logoText.Value? && k'.logoText.value != ""
  {
    ConstantsAreTrimmed();
    ShowsSrc(Merge(k, PatchFor(NoLogo, k, preset)), PLATFORM_MARK, preset, official);
  }

  lemma UnionRoundTrip(mode: Mode, k: LogoFields, preset: PresetLogos, official: Option<OfficialLogos>)
    requires !preset.useOfficialPack && (mode.UnionLockup? || mode.UnionMark?)
    requires var src := if mode.UnionLockup? then preset.lockup else preset.mark;
      !IsPlatformSrc(src) && src != "" && Trim(src) == src
    ensures SelectedMode(Merge(k, PatchFor(mode, k, Some(preset))), Some(preset), official) == mode
       <==> !(mode.UnionMark? && preset.mark == preset.lockup)
  {
    var src := if mode.UnionLockup? then preset.lockup else preset.mark;
    ShowsSrc(Merge(k, PatchFor(mode, k, Some(preset))), src, Some(preset), official);
  }

  /** For every kit and every option offered: the choice survives exactly under `RoundTrips`. */
  lemma ChoiceRoundTripExact(mode: Mode, k: LogoFields, logos: Option<LogoPack>, official: Option<OfficialLogos>)
    requires Offered(mode, logos, official)
    ensures var preset := PresetOf(logos);
      SelectedMode(Merge(k, PatchFor(mode, k, preset)), preset, official) == mode <==> RoundTrips(mode, k, preset)
  {
    var preset := PresetOf(logos);
    match mode
    case Official(v) =>
    case UnionLockup => PresetIsTrimmed(logos.value); UnionRoundTrip(mode, k, preset.value, official);
    case UnionMark => PresetIsTrimmed(logos.value); UnionRoundTrip(mode, k, preset.value, official);
    case Platform => PlatformRoundTrip(k, preset, official);
    case Custom => CustomRoundTrip(k, preset, official);
    case NoLogo => assert false;
  }

  /** An upload equal to the union lockup turns the choice "custom" into "union lockup". */
  lemma UploadedLockupIsNotCustom(k: LogoFields, logos: LogoPack, official: Option<OfficialLogos>)
    requires HasAttachedLogos(logos) && !logos.useOfficialPack
    ensures var preset := ResolvePreset(logos);
      var uploaded := k.(customLogoDataUrl := Value(preset.lockup));
      SelectedMode(Merge(uploaded, PatchFor(Custom, uploaded, Some(preset))), Some(preset), official) == UnionLockup
  {
    PresetIsTrimmed(logos);
  }

  /** Coercion reaches a variant that it then leaves alone. */
  lemma CoerceIdempotent(pack: Option<OfficialLogos>, v: Variant)
    ensures Coerce(pack, Coerce(pack, v)) == Coerce(pack, v)
  {
  }

  predicate UsesOfficial(k: LogoFields, preset: Option<PresetLogos>) {
    k.useOfficialLogo && (preset.None? || preset.value.useOfficialPack)
  }

  /** The two-stage parser in one case analysis: the remount of official kits only ever reaches the source. */
  lemma SelectedModeCases(k: LogoFields, preset: Option<PresetLogos>, official: Option<OfficialLogos>)
    ensures SelectedMode(k, preset, official) ==
      if UsesOfficial(k, preset) then
        Official(Coerce(official, if k.officialLogoVariant.Value? then k.officialLogoVariant.value else Lockup))
      else if k.customLogoDataUrl.Undefined? then Platform
      else if k.customLogoDataUrl.value == "" then Custom
      else SrcMode(Trim(k.customLogoDataUrl.value), preset)
  {
    if k.customLogoDataUrl.Undefined? && !UsesOfficial(k, preset) {
      ConstantsAreTrimmed();
    } else if UsesOfficial(k, preset) {
      CoerceIdempotent(official, if k.officialLogoVariant.Value? then k.officialLogoVariant.value else Lockup);
    }
  }

  /** The picker's second stage is redundant: the first one already yields its mode. */
  lemma SecondStageIsRedundant(k: LogoFields, preset: Option<PresetLogos>, official: Option<OfficialLogos>)
    ensures ResolveMode(k, preset, official) == SelectedMode(k, preset, official)
  {
    SelectedModeCases(k, preset, official);
  }

  /** What the picker shows says this much about the kit and the preset. */
  lemma ShownMode(k: LogoFields, preset: Option<PresetLogos>, official: Option<OfficialLogos>)
    ensures var mode := SelectedMode(k, preset, official);
      && !mode.NoLogo?
      && (mode.Official? ==> UsesOfficial(k, preset) && Coerce(official, mode.variant) == mode.variant)
      && (mode.UnionLockup? || mode.UnionMark? ==>
            && preset.Some? && !preset.value.useOfficialPack
            && !IsPlatformSrc(if mode.UnionLockup? then preset.value.lockup else preset.value.mark))
      && (mode.Custom? ==> !UploadIsPresetAsset(k, preset))
  {
    SelectedModeCases(k, preset, official);
    if UsesOfficial(k, preset) {
      CoerceIdempotent(official, if k.officialLogoVariant.Value? then k.officialLogoVariant.value else Lockup);
    }
  }

  /**
   * Choosing again what the picker shows, for any kit at all, changes nothing, unless it shows the union mark
   * and that asset is also the lockup.
   */
  lemma ReselectingIsStable(k: LogoFields, logos: Option<LogoPack>, official: Option<OfficialLogos>)
    ensures var preset := PresetOf(logos);
      var mode := SelectedMode(k, preset, official);
      var again := SelectedMode(Merge(k, PatchFor(mode, k, preset)), preset, official);
      again == mode <==> !(mode.UnionMark? && preset.value.mark == preset.value.lockup)
  {
    var preset := PresetOf(logos);
    var mode := SelectedMode(k, preset, official);
    ShownMode(k, preset, official);
    match mode
    case Official(v) =>
    case UnionLockup => PresetIsTrimmed(logos.value); UnionRoundTrip(mode, k, preset.value, official);
    case UnionMark => PresetIsTrimmed(logos.value); UnionRoundTrip(mode, k, preset.value, official);
    case Platform => PlatformRoundTrip(k, preset, official);
    case Custom => CustomRoundTrip(k, preset, official);
    case NoLogo => assert false;
  }

  // ---- What the choices are and what they write ----

  predicate NonBlank(s: Slot<string>) {
    s.Value? && Trim(s.value) != ""
  }

  predicate IsPlatformAsset(src: string) {
    || src == "/assets/unionops/logo-mark.svg" || src == "/assets/unionops/logo-lockup.svg"
    || src == "/assets/unionops/logo-mark-on-dark.svg" || src == "/assets/unionops/logo-mark-interlock.png"
  }

  /** The preset brings a lockup and a mark of its own. */
  predicate BringsLogos(logos: LogoPack) {
    && NonBlank(logos.lockup) && !IsPlatformAsset(Trim(logos.lockup.value))
    && NonBlank(logos.mark) && !IsPlatformAsset(Trim(logos.mark.value))
  }

  lemma PlatformSrcExact(src: string)
    ensures IsPlatformSrc(src) <==> IsPlatformAsset(Trim(src))
  {
  }

  lemma TrimmedPlatformSrc(src: string)
    ensures IsPlatformSrc(Trim(src)) <==> IsPlatformAsset(Trim(src))
  {
    TrimIdempotent(src);
  }

  /** Which options are offered, read off the preset and the identity pack. */
  lemma OfferedExact(mode: Mode, logos: Option<LogoPack>, official: Option<OfficialLogos>)
    ensures Offered(mode, logos, official) <==>
      match mode
      case Official(v) =>
        && logos.Some? && logos.value.useOfficialPack && NonBlank(logos.value.lockup) && NonBlank(logos.value.mark)
        && official.Some? && v in official.value.selectable
        && (v == Lockup || (v == Mark && official.value.hasMark))
      case UnionLockup => logos.Some? && !logos.value.useOfficialPack && BringsLogos(logos.value)
      case UnionMark => logos.Some? && !logos.value.useOfficialPack && BringsLogos(logos.value)
      case NoLogo => false
      case _ => true
  {
    if logos.Some? {
      if logos.value.lockup.Value? {
        TrimmedPlatformSrc(logos.value.lockup.value);
      }
      if logos.value.mark.Value? {
        TrimmedPlatformSrc(logos.value.mark.value);
      }
    }
  }

  /** What choosing an option leaves in the kit. */
  lemma ChoiceWrites(mode: Mode, k: LogoFields, logos: Option<LogoPack>, official: Option<OfficialLogos>)
    requires Offered(mode, logos, official)
    ensures var k' := Merge(k, PatchFor(mode, k, PresetOf(logos)));
      && k'.useOfficialLogo == mode.Official? && k'.logoText == k.logoText
      && k'.officialLogoVariant == (if mode.Official? then Value(mode.variant) else k.officialLogoVariant)
      && k'.customLogoDataUrl ==
         match mode
         case Official(_) => Undefined
         case UnionLockup => Value(Trim(logos.value.lockup.value))
         case UnionMark => Value(Trim(logos.value.mark.value))
         case Custom =>
           if NonBlank(k.customLogoDataUrl) && !IsPlatformAsset(Trim(k.customLogoDataUrl.value))
           then Value(Trim(k.customLogoDataUrl.value)) else Value("")
         case _ => Value("/assets/unionops/logo-mark.svg")
  {
    if k.customLogoDataUrl.Value? {
      TrimmedPlatformSrc(k.customLogoDataUrl.value);
    }
  }

  /** Choosing none keeps a monogram that is not blank, and makes one otherwise. */
  lemma NoLogoWrites(k: LogoFields, preset: Option<PresetLogos>)
    ensures var k' := Merge(k, PatchFor(NoLogo, k, preset));
      && !k'.useOfficialLogo && k'.officialLogoVariant == k.officialLogoVariant
      && k'.customLogoDataUrl == Value("/assets/unionops/logo-mark.svg")
      && k'.logoText == Value(if NonBlank(k.logoText) then Trim(k.logoText.value) else "UO")
  {
  }

  /** What a source in the kit is shown as, for a preset with logos of its own and without the official pack. */
  lemma SourceExact(k: LogoFields, src: string, logos: LogoPack, official: Option<OfficialLogos>)
    requires BringsLogos(logos) && !logos.useOfficialPack && k.customLogoDataUrl == Value(src) && src != ""
    ensures SelectedMode(k, Some(ResolvePreset(logos)), official) ==
      if IsPlatformAsset(Trim(src)) then Platform
      else if Trim(src) == Trim(logos.lockup.value) then UnionLockup
      else if Trim(src) == Trim(logos.mark.value) then UnionMark
      else if NonBlank(logos.markOnDark) && Trim(src) == Trim(logos.markOnDark.value) then UnionMark
      else Custom
  {
    SelectedModeCases(k, Some(ResolvePreset(logos)), official);
    TrimmedPlatformSrc(src);
    TrimmedPlatformSrc(logos.lockup.value);
    TrimmedPlatformSrc(logos.mark.value);
  }

  /** Coercion keeps what the pack offers, and falls back to the first variant it offers, or else the lockup. */
  lemma CoerceExact(pack: OfficialLogos, v: Variant)
    ensures Coerce(Some(pack), v) ==
      if v in {Lockup, Mark} && v in pack.selectable then v
      else if v in {SlitBlue, SlitWhite} && pack.hasSlits then v
      else if pack.selectable == [] then Lockup else pack.selectable[0]
    ensures Coerce(None, v) == if v == Mark then Mark else Lockup
  {
  }
}
