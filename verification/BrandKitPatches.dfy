/**
 * Brand Kit objects and patches, and the two merges of src/store/brand-store.ts:
 * applying a patch to a kit, and queueing a patch behind another while the kit is still loading.
 */
module BrandKitPatches {
  import opened JsValues

  datatype Val = Text(text: string) | Flag(flag: bool) | Items(items: seq<string>)

  /** Ordinary top-level fields: the ones spread from the patch onto the kit. */
  datatype Field =
    | UseOfficialLogo | CustomLogoDataUrl | OfficialLogoVariant | IdentityPackId
    | DesignTreatment | UnionPresetId | OpseuSectorId
    | Profiles | ActiveProfileId
    | PrimaryColor | SecondaryColor | AccentColor
    | UpdatedAt | OtherField(name: string)

  datatype LocalField = LocalNumber | SubText | DivisionId | BargainingUnitCode | OtherLocal(name: string)

  /** Own properties of a flat object; a key may be there and hold `undefined`. */
  type Fields = map<Field, Slot<Val>>
  type LocalFields = map<LocalField, Slot<Val>>
  type Tokens = map<string, Slot<Val>>

  datatype Kit = Kit(
    fields: Fields,
    local: LocalFields,
    customLinks: Slot<Val>,
    membershipUrls: Slot<Val>,
    canvas: Slot<Tokens>)

  /** `canvas: null` is `Present(None)`. */
  datatype Patch = Patch(
    fields: Fields,
    local: Prop<LocalFields>,
    customLinks: Prop<Val>,
    membershipUrls: Prop<Val>,
    canvas: Prop<Option<Tokens>>)

  const LOGO_PATCH_KEYS: set<Field> := {UseOfficialLogo, CustomLogoDataUrl, OfficialLogoVariant, IdentityPackId}

  predicate TouchesLogo(p: Patch) {
    p.fields.Keys * LOGO_PATCH_KEYS != {}
  }

  predicate NeedsImmediateSave(p: Patch) {
    TouchesLogo(p) || DesignTreatment in p.fields || UnionPresetId in p.fields
  }

  function Get(m: Fields, f: Field): Slot<Val> {
    if f in m then m[f] else Undefined
  }

  function GetLocal(m: LocalFields, f: LocalField): Slot<Val> {
    if f in m then m[f] else Undefined
  }

  /** `...partial.local`: spreading `undefined` adds nothing. */
  function LocalOf(p: Patch): LocalFields {
    if p.local.Present? then p.local.value else map[]
  }

  /** The object literal that `applyBrandKitPatch` hands to the normaliser. */
  function Apply(current: Kit, p: Patch, now: Val): Kit {
    Kit(
      (current.fields + p.fields)[UpdatedAt := Value(now)],
      current.local + LocalOf(p),
      OrElse(Read(p.customLinks), current.customLinks),
      OrElse(Read(p.membershipUrls), current.membershipUrls),
      match p.canvas
      case Absent => current.canvas
      case PresentUndefined => Undefined
      case Present(None) => Undefined
      case Present(Some(tokens)) => Value(tokens))
  }

  function Own<T>(s: Slot<T>): Prop<T> {
    if s.Value? then Present(s.value) else PresentUndefined
  }

  /** `queued.canvas ?? {}`. */
  function QueuedTokens(p: Patch): Tokens {
    if p.canvas.Present? && p.canvas.value.Some? then p.canvas.value.value else map[]
  }

  /** `queueBrandKitPatch`. The literal it builds always owns the keys local, links and canvas. */
  function Queue(queued: Option<Patch>, next: Patch): Patch {
    if queued.None? then next else
    var q := queued.value;
    Patch(
      q.fields + next.fields,
      if q.local.Present? || next.local.Present? then Present(LocalOf(q) + LocalOf(next)) else PresentUndefined,
      Own(OrElse(Read(next.customLinks), Read(q.customLinks))),
      Own(OrElse(Read(next.membershipUrls), Read(q.membershipUrls))),
      match next.canvas
      case PresentUndefined => PresentUndefined
      case Present(None) => Present(None)
      case Present(Some(tokens)) => Present(Some(QueuedTokens(q) + tokens))
      case Absent => if q.canvas.Present? then q.canvas else PresentUndefined)
  }

  // ---- Two patches ----

  predicate SameButCanvas(a: Kit, b: Kit) {
    && a.fields == b.fields && a.local == b.local
    && a.customLinks == b.customLinks && a.membershipUrls == b.membershipUrls
  }

  lemma SpreadTwice(k: Fields, p: Fields, q: Fields, earlier: Val, now: Val)
    ensures (k + (p + q))[UpdatedAt := Value(now)]
         == ((k + p)[UpdatedAt := Value(earlier)] + q)[UpdatedAt := Value(now)]
  {
  }

  /** Queueing then applying once equals applying twice, on everything but the canvas. */
  lemma QueueIsComposition(k: Kit, p: Patch, q: Patch, earlier: Val, now: Val)
    ensures SameButCanvas(Apply(k, Queue(Some(p), q), now), Apply(Apply(k, p, earlier), q, now))
  {
    SpreadTwice(k.fields, p.fields, q.fields, earlier, now);
    assert k.local + (LocalOf(p) + LocalOf(q)) == k.local + LocalOf(p) + LocalOf(q);
    assert LocalOf(Queue(Some(p), q)) == LocalOf(p) + LocalOf(q);
  }

  /**
   * Exactly when the canvas agrees too. It is lost when neither patch mentions canvas but the kit has one
   * (queueing adds the key), and it is widened when both set it and the second does not cover the first
   * (queueing merges where applying replaces).
   */
  predicate CanvasQueuesFaithfully(k: Kit, p: Patch, q: Patch) {
    match q.canvas
    case Absent => p.canvas.Absent? ==> k.canvas.Undefined?
    case PresentUndefined => true
    case Present(None) => true
    case Present(Some(tokens)) => QueuedTokens(p).Keys <= tokens.Keys
  }

  lemma QueueCanvasExact(k: Kit, p: Patch, q: Patch, earlier: Val, now: Val)
    ensures Apply(k, Queue(Some(p), q), now).canvas == Apply(Apply(k, p, earlier), q, now).canvas
       <==> CanvasQueuesFaithfully(k, p, q)
  {
    if q.canvas.Present? && q.canvas.value.Some? {
      MergeKeepsIffCovered(QueuedTokens(p), q.canvas.value.value);
    }
  }

  lemma MergeKeepsIffCovered(a: Tokens, b: Tokens)
    ensures a + b == b <==> a.Keys <= b.Keys
  {
    assert (a + b).Keys == a.Keys + b.Keys;
    if a.Keys <= b.Keys {
      assert a + b == b;
    }
  }

  /** Queueing does not lose the need for an immediate save, and never invents one. */
  lemma QueueKeepsImmediacy(p: Patch, q: Patch)
    ensures NeedsImmediateSave(Queue(Some(p), q)) <==> NeedsImmediateSave(p) || NeedsImmediateSave(q)
  {
    assert Queue(Some(p), q).fields.Keys == p.fields.Keys + q.fields.Keys;
    assert (p.fields.Keys + q.fields.Keys) * LOGO_PATCH_KEYS
        == p.fields.Keys * LOGO_PATCH_KEYS + q.fields.Keys * LOGO_PATCH_KEYS;
  }

  // ---- Any number of patches ----

  function QueueAll(ps: seq<Patch>): Option<Patch> {
    if ps == [] then None else Some(Queue(QueueAll(ps[..|ps| - 1]), ps[|ps| - 1]))
  }

  function ApplyAll(k: Kit, ps: seq<Patch>, now: Val): Kit {
    if ps == [] then k else Apply(ApplyAll(k, ps[..|ps| - 1], now), ps[|ps| - 1], now)
  }

  lemma {:induction false} QueueAllIsComposition(k: Kit, ps: seq<Patch>, now: Val)
    requires ps != []
    ensures SameButCanvas(Apply(k, QueueAll(ps).value, now), ApplyAll(k, ps, now))
  {
    var init, last := ps[..|ps| - 1], ps[|ps| - 1];
    if init != [] {
      QueueAllIsComposition(k, init, now);
      QueueIsComposition(k, QueueAll(init).value, last, now, now);
    }
  }

  /** The canvas tokens that end up in the queue: everything set since canvas was last cleared. */
  function CarriedKeys(ps: seq<Patch>): set<string> {
    if ps == [] then {} else
    var carried := CarriedKeys(ps[..|ps| - 1]);
    match ps[|ps| - 1].canvas
    case Absent => carried
    case PresentUndefined => {}
    case Present(None) => {}
    case Present(Some(tokens)) => carried + tokens.Keys
  }

  /** The canvas property of the last patch that mentions canvas at all. */
  function LastCanvas(ps: seq<Patch>): Prop<Option<Tokens>> {
    if ps == [] then Absent
    else if ps[|ps| - 1].canvas.Absent? then LastCanvas(ps[..|ps| - 1])
    else ps[|ps| - 1].canvas
  }

  predicate CanvasSurvivesQueue(k: Kit, ps: seq<Patch>) {
    match LastCanvas(ps)
    case Absent => |ps| >= 2 ==> k.canvas.Undefined?
    case PresentUndefined => true
    case Present(None) => true
    case Present(Some(tokens)) => CarriedKeys(ps) == tokens.Keys
  }

  lemma {:induction false} AppliedCanvas(k: Kit, ps: seq<Patch>, now: Val)
    ensures ApplyAll(k, ps, now).canvas ==
      match LastCanvas(ps)
      case Absent => k.canvas
      case PresentUndefined => Undefined
      case Present(None) => Undefined
      case Present(Some(tokens)) => Value(tokens)
  {
    if ps != [] {
      AppliedCanvas(k, ps[..|ps| - 1], now);
    }
  }

  lemma {:induction false} QueuedCanvas(ps: seq<Patch>)
    requires ps != []
    ensures var c := QueueAll(ps).value.canvas;
      && QueuedTokens(QueueAll(ps).value).Keys == CarriedKeys(ps)
      && (c.Absent? <==> |ps| == 1 && LastCanvas(ps).Absent?)
      && match LastCanvas(ps)
         case Absent => !c.Present?
         case PresentUndefined => !c.Present?
         case Present(None) => c == Present(None) || c.PresentUndefined?
         case Present(Some(tokens)) =>
           c.Present? && c.value.Some? && c.value.value.Keys == CarriedKeys(ps)
           && forall key :: key in tokens ==> key in c.value.value && c.value.value[key] == tokens[key]
  {
    var init, last := ps[..|ps| - 1], ps[|ps| - 1];
    if init != [] {
      QueuedCanvas(init);
      assert QueueAll(ps).value == Queue(Some(QueueAll(init).value), last);
      if last.canvas.Present? && last.canvas.value.Some? {
        var tokens := last.canvas.value.value;
        assert (QueuedTokens(QueueAll(init).value) + tokens).Keys == CarriedKeys(init) + tokens.Keys;
      }
    } else {
      assert QueueAll(init) == None && LastCanvas(init) == Absent && CarriedKeys(init) == {};
    }
  }

  /** For any run of patches: the queued canvas equals the applied one exactly under `CanvasSurvivesQueue`. */
  lemma QueueAllCanvasExact(k: Kit, ps: seq<Patch>, now: Val)
    requires ps != []
    ensures Apply(k, QueueAll(ps).value, now).canvas == ApplyAll(k, ps, now).canvas
       <==> CanvasSurvivesQueue(k, ps)
  {
    AppliedCanvas(k, ps, now);
    QueuedCanvas(ps);
    var last := LastCanvas(ps);
    if last.Present? && last.value.Some? {
      var tokens := last.value.value;
      var queued := QueueAll(ps).value.canvas.value.value;
      assert Apply(k, QueueAll(ps).value, now).canvas == Value(queued);
      if queued.Keys == tokens.Keys {
        assert queued == tokens;
      }
    }
  }

  // ---- Last writer wins ----

  /** What the last patch naming the field wrote. */
  function LastWrite(ps: seq<Patch>, f: Field): Option<Slot<Val>> {
    if ps == [] then None
    else if f in ps[|ps| - 1].fields then Some(ps[|ps| - 1].fields[f])
    else LastWrite(ps[..|ps| - 1], f)
  }

  function LastLocalWrite(ps: seq<Patch>, f: LocalField): Option<Slot<Val>> {
    if ps == [] then None
    else if f in LocalOf(ps[|ps| - 1]) then Some(LocalOf(ps[|ps| - 1])[f])
    else LastLocalWrite(ps[..|ps| - 1], f)
  }

  /** Links are kept by a patch that holds `undefined`: only a real value counts as a write. */
  function LastLinks(ps: seq<Patch>, links: Patch -> Prop<Val>): Slot<Val> {
    if ps == [] then Undefined
    else OrElse(Read(links(ps[|ps| - 1])), LastLinks(ps[..|ps| - 1], links))
  }

  /** Every non-canvas field of `k` is its last write among `ps`, or untouched from `base`. */
  ghost predicate LastWritesOver(k: Kit, base: Kit, ps: seq<Patch>) {
    && (forall f {:trigger Get(k.fields, f)} | f != UpdatedAt ::
          Get(k.fields, f) == (if LastWrite(ps, f).Some? then LastWrite(ps, f).value else Get(base.fields, f)))
    && (forall f {:trigger GetLocal(k.local, f)} ::
          GetLocal(k.local, f) ==
            if LastLocalWrite(ps, f).Some? then LastLocalWrite(ps, f).value else GetLocal(base.local, f))
    && k.customLinks == OrElse(LastLinks(ps, (p: Patch) => p.customLinks), base.customLinks)
    && k.membershipUrls == OrElse(LastLinks(ps, (p: Patch) => p.membershipUrls), base.membershipUrls)
  }

  lemma {:induction false} ApplyAllLastWrites(base: Kit, ps: seq<Patch>, now: Val)
    ensures LastWritesOver(ApplyAll(base, ps, now), base, ps)
  {
    if ps != [] {
      var init, last := ps[..|ps| - 1], ps[|ps| - 1];
      ApplyAllLastWrites(base, init, now);
      var before, after := ApplyAll(base, init, now), ApplyAll(base, ps, now);
      forall f | f != UpdatedAt
        ensures Get(after.fields, f) == if f in last.fields then last.fields[f] else Get(before.fields, f)
      {
      }
      forall f
        ensures GetLocal(after.local, f) == if f in LocalOf(last) then LocalOf(last)[f] else GetLocal(before.local, f)
      {
      }
    }
  }

  /** One application of the whole queue leaves every non-canvas field with its last written value. */
  lemma QueueKeepsLastWrites(base: Kit, ps: seq<Patch>, now: Val)
    requires ps != []
    ensures LastWritesOver(Apply(base, QueueAll(ps).value, now), base, ps)
  {
    ApplyAllLastWrites(base, ps, now);
    QueueAllIsComposition(base, ps, now);
  }

  // ---- What the normaliser receives ----

  /** The last value written to a canvas token. */
  function LastToken(ps: seq<Patch>, key: string): Slot<Val> {
    if ps == [] then Undefined
    else
      var c := ps[|ps| - 1].canvas;
      if c.Present? && c.value.Some? && key in c.value.value then c.value.value[key]
      else LastToken(ps[..|ps| - 1], key)
  }

  /**
   * The canvas after the patches were queued: the carried tokens with their last values, nothing once it was cleared,
   * and nothing either once two patches were queued that never mention it.
   */
  predicate CanvasOver(c: Slot<Tokens>, base: Slot<Tokens>, ps: seq<Patch>) {
    match LastCanvas(ps)
    case Absent => c == if |ps| >= 2 then Undefined else base
    case PresentUndefined => c == Undefined
    case Present(None) => c == Undefined
    case Present(Some(_)) =>
      c.Value? && c.value.Keys == CarriedKeys(ps) && forall key :: key in c.value ==> c.value[key] == LastToken(ps, key)
  }

  /** Every field of `k` is its last write among `ps`, or untouched from `base`; the time stamp is new. */
  ghost predicate Merged(k: Kit, base: Kit, ps: seq<Patch>, now: Val) {
    LastWritesOver(k, base, ps) && Get(k.fields, UpdatedAt) == Value(now) && CanvasOver(k.canvas, base.canvas, ps)
  }

  lemma {:induction false} QueuedTokensAreLast(ps: seq<Patch>)
    requires ps != []
    ensures var tokens := QueuedTokens(QueueAll(ps).value);
      forall key :: key in tokens ==> tokens[key] == LastToken(ps, key)
  {
    var init, last := ps[..|ps| - 1], ps[|ps| - 1];
    if init != [] {
      QueuedTokensAreLast(init);
      assert QueueAll(ps).value == Queue(Some(QueueAll(init).value), last);
    } else {
      assert QueueAll(init) == None;
    }
  }

  lemma QueueMergesCanvas(base: Kit, ps: seq<Patch>, now: Val)
    requires ps != []
    ensures CanvasOver(Apply(base, QueueAll(ps).value, now).canvas, base.canvas, ps)
  {
    QueuedCanvas(ps);
    QueuedTokensAreLast(ps);
  }

  /** One application of the whole queue, every field of it. */
  lemma QueueMerges(base: Kit, ps: seq<Patch>, now: Val)
    requires ps != []
    ensures Merged(Apply(base, QueueAll(ps).value, now), base, ps, now)
  {
    QueueKeepsLastWrites(base, ps, now);
    QueueMergesCanvas(base, ps, now);
  }

  /** The last patch that names the field writes a real value. */
  predicate WritesValue(ps: seq<Patch>, f: Field) {
    LastWrite(ps, f).Some? && LastWrite(ps, f).value.Value?
  }

  lemma {:induction false} QueuedField(ps: seq<Patch>, f: Field)
    requires ps != []
    ensures var fields := QueueAll(ps).value.fields;
      if f in fields then LastWrite(ps, f) == Some(fields[f]) else LastWrite(ps, f) == None
  {
    var init, last := ps[..|ps| - 1], ps[|ps| - 1];
    if init != [] {
      QueuedField(init, f);
      assert QueueAll(ps).value == Queue(Some(QueueAll(init).value), last);
    } else {
      assert QueueAll(init) == None && LastWrite(init, f) == None;
    }
  }
}
