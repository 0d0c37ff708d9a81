/**
 * The website draft and public roster stores. Both edit in memory and save behind a debounce timer whose callback
 * captured the edited value; both save a replacement, an import or a reset at once and leave the timer running.
 * The stores differ only in how a new value is built, so the model takes the new value or the update itself.
 */
module DebouncedStore {
  import opened JsValues

  datatype State<D> = State(
    value: D,
    hydrated: bool,
    saveTimer: Option<nat>,
    armed: map<nat, D>,              // callbacks the browser will still run, each with the value it saves
    nextTimer: nat,
    stored: Option<D>,
    loading: seq<Option<D>>)         // hydrations in flight, each with what it read from storage

  datatype Event<!D> =
    | Edit(update: D -> D)           // setDraft, setPeople
    | Replace(replacement: D)        // replaceDraft, resetDraft, importRoster, resetRoster
    | TimerFires(id: nat)
    | HydrateStarts
    | HydrateEnds(i: nat)

  function Schedule<D>(s: State<D>, d: D): State<D> {
    var rest := if s.saveTimer.Some? then s.armed - {s.saveTimer.value} else s.armed;
    s.(saveTimer := Some(s.nextTimer), armed := rest[s.nextTimer := d], nextTimer := s.nextTimer + 1)
  }

  /** An event that cannot happen in `s` leaves it alone. */
  function Step<D>(s: State<D>, e: Event<D>): State<D> {
    match e
    case Edit(update) => Schedule(s.(value := update(s.value)), update(s.value))
    case Replace(d) => s.(value := d, stored := Some(d))
    case TimerFires(id) =>
      if id in s.armed then s.(saveTimer := None, armed := s.armed - {id}, stored := Some(s.armed[id])) else s
    case HydrateStarts => if s.hydrated then s else s.(loading := s.loading + [s.stored])
    case HydrateEnds(i) =>
      if i < |s.loading| then
        s.(value := if s.loading[i].Some? then s.loading[i].value else s.value, hydrated := true,
           loading := s.loading[..i] + s.loading[i + 1..])
      else s
  }

  function Run<D>(s: State<D>, es: seq<Event<D>>): State<D>
    decreases es
  {
    if es == [] then s else Run(Step(s, es[0]), es[1..])
  }

  function Initial<D>(empty: D, stored: Option<D>): State<D> {
    State(empty, false, None, map[], 0, stored, [])
  }

  /** At most one callback is ever armed, and the timer variable names it. */
  predicate Sound<D>(s: State<D>) {
    && s.armed.Keys == (if s.saveTimer.Some? then {s.saveTimer.value} else {})
    && (s.saveTimer.Some? ==> s.saveTimer.value < s.nextTimer)
  }

  lemma StepSound<D>(s: State<D>, e: Event<D>)
    requires Sound(s)
    ensures Sound(Step(s, e))
  {
  }

  function ApplyAll<D>(d: D, updates: seq<D -> D>): D {
    if updates == [] then d else ApplyAll(updates[0](d), updates[1..])
  }

  function Edits<D>(updates: seq<D -> D>): seq<Event<D>> {
    seq(|updates|, i requires 0 <= i < |updates| => Event.Edit(updates[i]))
  }

  /**
   * A burst of edits, hydrated or not: each is applied to what the one before it left and is shown at once; nothing
   * is written, and the one timer that is left stores what the last one left.
   */
  lemma {:induction false} BurstIsSavedOnce<D>(s: State<D>, updates: seq<D -> D>)
    requires Sound(s) && updates != []
    ensures var s' := Run(s, Edits(updates));
      && s'.value == ApplyAll(s.value, updates) && s'.stored == s.stored && s'.hydrated == s.hydrated
      && s'.saveTimer.Some? && s'.armed == map[s'.saveTimer.value := s'.value]
      && var s'' := Step(s', TimerFires(s'.saveTimer.value));
         s''.stored == Some(s'.value) && s''.value == s'.value && s''.saveTimer.None? && s''.armed == map[]
    decreases updates
  {
    var s1 := Step(s, Event.Edit(updates[0]));
    StepSound(s, Event.Edit(updates[0]));
    assert Edits(updates)[1..] == Edits(updates[1..]);
    if updates[1..] == [] {
      assert Run(s, Edits(updates)) == s1;
      assert s1.armed == map[s1.saveTimer.value := s1.value];
    } else {
      BurstIsSavedOnce(s1, updates[1..]);
    }
  }

  /** A replacement is shown and stored; a first load shows what was stored, or the empty value. */
  lemma ReplaceAndLoadExact<D>(s: State<D>, d: D, empty: D, stored: Option<D>)
    ensures var s' := Step(s, Replace(d)); s'.value == d && s'.stored == Some(d) && s'.hydrated == s.hydrated
    ensures var end := Run(Initial(empty, stored), [HydrateStarts, HydrateEnds(0)]);
      end.hydrated && end.value == (if stored.Some? then stored.value else empty) && end.stored == stored
  {
    var s0 := Initial(empty, stored);
    var s1 := Step(s0, HydrateStarts);
    RunTrace([HydrateStarts, HydrateEnds(0)], [s0, s1, Step(s1, HydrateEnds(0))]);
  }

  /** What the timer will save, or else what is stored, is the value in memory. */
  ghost predicate Agrees<D>(s: State<D>)
    requires Sound(s)
  {
    s.hydrated ==>
      if s.saveTimer.Some? then s.armed[s.saveTimer.value] == s.value
      else s.stored.Some? ==> s.stored.value == s.value
  }

  /** A replacement under a pending timer, or the end of a hydration that something was written under. */
  ghost predicate Parts<D>(s: State<D>, e: Event<D>)
    requires Sound(s)
  {
    match e
    case Replace(d) => s.hydrated && s.saveTimer.Some? && s.armed[s.saveTimer.value] != d
    case HydrateEnds(i) =>
      i < |s.loading| &&
      var d := if s.loading[i].Some? then s.loading[i].value else s.value;
      if s.saveTimer.Some? then s.armed[s.saveTimer.value] != d else s.stored.Some? && s.stored.value != d
    case _ => false
  }

  /** A step keeps agreement if and only if it is not one of those. */
  lemma StepAgreesExact<D>(s: State<D>, e: Event<D>)
    requires Sound(s) && Agrees(s)
    ensures Sound(Step(s, e)) && (Agrees(Step(s, e)) <==> !Parts(s, e))
  {
    StepSound(s, e);
  }

  ghost predicate AgreesThroughout<D>(s: State<D>, es: seq<Event<D>>)
    requires Sound(s)
    decreases es
  {
    Agrees(s) && (es != [] ==> (StepSound(s, es[0]); AgreesThroughout(Step(s, es[0]), es[1..])))
  }

  ghost predicate NeverParts<D>(s: State<D>, es: seq<Event<D>>)
    requires Sound(s)
    decreases es
  {
    es != [] ==> !Parts(s, es[0]) && (StepSound(s, es[0]); NeverParts(Step(s, es[0]), es[1..]))
  }

  lemma {:induction false} RunAgreesExact<D>(s: State<D>, es: seq<Event<D>>)
    requires Sound(s) && Agrees(s)
    ensures AgreesThroughout(s, es) <==> NeverParts(s, es)
    decreases es
  {
    if es != [] {
      StepAgreesExact(s, es[0]);
      if Agrees(Step(s, es[0])) {
        RunAgreesExact(Step(s, es[0]), es[1..]);
      }
    }
  }

  /** No replacement happens while a timer is pending, and no hydration is left to end. */
  ghost predicate Careful<D>(s: State<D>, es: seq<Event<D>>)
    requires Sound(s)
    decreases es
  {
    es != [] ==>
      && !(es[0].Replace? && s.saveTimer.Some?)
      && !es[0].HydrateEnds?
      && (StepSound(s, es[0]); Careful(Step(s, es[0]), es[1..]))
  }

  /** From any agreeing state: such a run keeps memory and storage in agreement in every state. */
  lemma {:induction false} CarefulRunsAgree<D>(s: State<D>, es: seq<Event<D>>)
    requires Sound(s) && Agrees(s) && Careful(s, es)
    ensures AgreesThroughout(s, es)
    decreases es
  {
    if es != [] {
      StepAgreesExact(s, es[0]);
      CarefulRunsAgree(Step(s, es[0]), es[1..]);
    }
  }

  // ---- At most one hydration in flight ----

  /** What storage will hold once no timer is pending. */
  function Latest<D>(s: State<D>): Option<D>
    requires Sound(s)
  {
    if s.saveTimer.Some? then Some(s.armed[s.saveTimer.value]) else s.stored
  }

  /** No hydration starts while another is in flight. A hydrated store does not hydrate again by itself. */
  predicate OneAtATime<D>(s: State<D>, es: seq<Event<D>>)
    decreases es
  {
    es != [] ==> (es[0].HydrateStarts? ==> s.hydrated || s.loading == []) && OneAtATime(Step(s, es[0]), es[1..])
  }

  /** Whether the hydration in flight began with an edit waiting to be saved, or saw an edit or a replacement since. */
  predicate Overtaken<D>(s: State<D>, e: Event<D>, before: bool) {
    if Step(s, e).loading == [] then false
    else if e.HydrateStarts? then s.saveTimer.Some?
    else before || e.Edit? || e.Replace?
  }

  /** A replacement that the pending timer will overwrite. */
  ghost predicate ReplacesUnderTimer<D>(s: State<D>, e: Event<D>)
    requires Sound(s)
  {
    e.Replace? && s.hydrated && s.saveTimer.Some? && s.armed[s.saveTimer.value] != e.replacement
  }

  /**
   * An overtaken hydration ends. If it had found a value, it forgets what was written since; if it had found none,
   * memory keeps a replacement that an older edit has overwritten or will overwrite.
   */
  ghost predicate EndsLate<D>(s: State<D>, e: Event<D>, overtaken: bool)
    requires Sound(s)
  {
    overtaken && e.HydrateEnds? && e.i < |s.loading| &&
    if s.loading[e.i].Some? then Latest(s) != s.loading[e.i] else Latest(s) != Some(s.value)
  }

  /** A hydration that is not overtaken holds exactly what is stored, with nothing pending. */
  ghost predicate OneInFlight<D>(s: State<D>, overtaken: bool) {
    && Sound(s) && |s.loading| <= 1 && (s.hydrated ==> s.loading == [])
    && (overtaken ==> s.loading != [] && Latest(s).Some?)
    && (s.loading != [] && !overtaken ==> s.saveTimer.None? && s.stored == s.loading[0])
  }

  lemma StepOneInFlight<D>(s: State<D>, e: Event<D>, overtaken: bool)
    requires OneInFlight(s, overtaken) && (e.HydrateStarts? ==> s.hydrated || s.loading == [])
    ensures OneInFlight(Step(s, e), Overtaken(s, e, overtaken))
    ensures Parts(s, e) <==> ReplacesUnderTimer(s, e) || EndsLate(s, e, overtaken)
  {
    StepSound(s, e);
  }

  /** No replacement under a pending timer that saves something else, and no hydration that ends late. */
  ghost predicate NeverLate<D>(s: State<D>, es: seq<Event<D>>, overtaken: bool)
    requires Sound(s)
    decreases es
  {
    es != [] ==>
      && !ReplacesUnderTimer(s, es[0]) && !EndsLate(s, es[0], overtaken)
      && (StepSound(s, es[0]); NeverLate(Step(s, es[0]), es[1..], Overtaken(s, es[0], overtaken)))
  }

  lemma {:induction false} RunOneInFlight<D>(s: State<D>, es: seq<Event<D>>, overtaken: bool)
    requires OneInFlight(s, overtaken) && Agrees(s) && OneAtATime(s, es)
    ensures AgreesThroughout(s, es) <==> NeverLate(s, es, overtaken)
    decreases es
  {
    if es != [] {
      StepAgreesExact(s, es[0]);
      StepOneInFlight(s, es[0], overtaken);
      if Agrees(Step(s, es[0])) {
        RunOneInFlight(Step(s, es[0]), es[1..], Overtaken(s, es[0], overtaken));
      }
    }
  }

  /**
   * From any storage, with at most one hydration in flight: memory and storage agree in every hydrated state exactly
   * when no replacement is made under a pending timer that saves something else, and no overtaken hydration ends
   * over what was written under it.
   */
  lemma OneAtATimeAgreesExact<D>(empty: D, stored: Option<D>, es: seq<Event<D>>)
    requires OneAtATime(Initial(empty, stored), es)
    ensures AgreesThroughout(Initial(empty, stored), es) <==> NeverLate(Initial(empty, stored), es, false)
  {
    RunOneInFlight(Initial(empty, stored), es, false);
  }

  /** Nothing is written until hydration has ended, and nothing is replaced under a pending timer. */
  ghost predicate Patient<D>(s: State<D>, es: seq<Event<D>>)
    decreases es
  {
    es != [] ==>
      && (es[0].Edit? ==> s.hydrated) && (es[0].Replace? ==> s.hydrated && s.saveTimer.None?)
      && Patient(Step(s, es[0]), es[1..])
  }

  lemma {:induction false} PatientRunsAreNeverLate<D>(s: State<D>, es: seq<Event<D>>)
    requires OneInFlight(s, false) && (!s.hydrated ==> s.saveTimer.None?)
    requires OneAtATime(s, es) && Patient(s, es)
    ensures NeverLate(s, es, false)
    decreases es
  {
    if es != [] {
      StepOneInFlight(s, es[0], false);
      PatientRunsAreNeverLate(Step(s, es[0]), es[1..]);
    }
  }

  /** A page that follows those two rules keeps memory and storage in agreement, from any storage and over any run. */
  lemma PatientPagesAgree<D>(empty: D, stored: Option<D>, es: seq<Event<D>>)
    requires OneAtATime(Initial(empty, stored), es) && Patient(Initial(empty, stored), es)
    ensures AgreesThroughout(Initial(empty, stored), es)
  {
    PatientRunsAreNeverLate(Initial(empty, stored), es);
    OneAtATimeAgreesExact(empty, stored, es);
  }

  /** An edit made while the stored value loads: memory forgets it, and the timer stores it. */
  lemma HydrationForgetsEdit<D>(empty: D, stored: D, update: D -> D)
    ensures var end := Run(Initial(empty, Some(stored)), [HydrateStarts, Edit(update), HydrateEnds(0), TimerFires(0)]);
      && end.hydrated && end.saveTimer.None? && end.value == stored && end.stored == Some(update(empty))
      && Sound(end) && (update(empty) != stored ==> !Agrees(end))
  {
    var s := Initial(empty, Some(stored));
    var s1 := Step(s, HydrateStarts);
    var s2 := Step(s1, Event.Edit(update));
    var s3 := Step(s2, HydrateEnds(0));
    var s4 := Step(s3, TimerFires(0));
    RunTrace([HydrateStarts, Edit(update), HydrateEnds(0), TimerFires(0)], [s, s1, s2, s3, s4]);
    StepSound(s3, TimerFires(0));
  }

  /** A replacement or import made while the stored value loads: storage keeps it, and memory forgets it. */
  lemma HydrationForgetsReplacement<D>(empty: D, stored: D, replacement: D)
    ensures var es := [HydrateStarts, Replace(replacement), HydrateEnds(0), TimerFires(0)];
      var end := Run(Initial(empty, Some(stored)), es);
      && end.hydrated && end.saveTimer.None? && end.value == stored && end.stored == Some(replacement)
      && Sound(end) && (replacement != stored ==> !Agrees(end))
  {
    var s := Initial(empty, Some(stored));
    var s1 := Step(s, HydrateStarts);
    var s2 := Step(s1, Event.Replace(replacement));
    var s3 := Step(s2, HydrateEnds(0));
    var s4 := Step(s3, TimerFires(0));
    RunTrace([HydrateStarts, Replace(replacement), HydrateEnds(0), TimerFires(0)], [s, s1, s2, s3, s4]);
  }

  /** A run by the states it goes through. */
  lemma {:induction false} RunTrace<D>(es: seq<Event<D>>, ss: seq<State<D>>)
    requires |ss| == |es| + 1 && forall i :: 0 <= i < |es| ==> ss[i + 1] == Step(ss[i], es[i])
    ensures Run(ss[0], es) == ss[|es|]
    decreases es
  {
    if es != [] {
      assert ss[1] == Step(ss[0], es[0]);
      forall i | 0 <= i < |es| - 1 ensures ss[1..][i + 1] == Step(ss[1..][i], es[1..][i]) {
        assert ss[i + 2] == Step(ss[i + 1], es[i + 1]);
      }
      RunTrace(es[1..], ss[1..]);
    }
  }

  /** Edit, replace (or reset), timer: the stale edit ends up stored under the replacement that memory shows. */
  lemma StaleEditPersists<D>(s: State<D>, update: D -> D, replacement: D)
    requires Sound(s) && s.hydrated && replacement != update(s.value)
    ensures var end := Run(s, [Edit(update), Replace(replacement), TimerFires(s.nextTimer)]);
      && Sound(end) && !Agrees(end)
      && end.saveTimer.None? && end.value == replacement && end.stored == Some(update(s.value))
  {
    var a, b, c := Event.Edit(update), Event.Replace(replacement), Event<D>.TimerFires(s.nextTimer);
    var s1 := Step(s, a);
    var s2 := Step(s1, b);
    RunTrace([a, b, c], [s, s1, s2, Step(s2, c)]);
    StepSound(s, a);
    StepSound(s1, b);
    StepSound(s2, c);
  }

  class Store<D> {
    var value: D
    var hydrated: bool
    var saveTimer: Option<nat>
    var armed: map<nat, D>
    var nextTimer: nat
    var stored: Option<D>
    var loading: seq<Option<D>>

    function Model(): State<D>
      reads this
    {
      State(value, hydrated, saveTimer, armed, nextTimer, stored, loading)
    }

    constructor (empty: D, stored: Option<D>)
      ensures Model() == Initial(empty, stored) && Sound(Model()) && Agrees(Model())
    {
      value, hydrated, saveTimer, armed, nextTimer, loading := empty, false, None, map[], 0, [];
      this.stored := stored;
    }

    method ScheduleSave(d: D)
      modifies this
      ensures Model() == Schedule(old(Model()), d)
    {
      if saveTimer.Some? {
        armed := armed - {saveTimer.value};
      }
      saveTimer := Some(nextTimer);
      armed := armed[nextTimer := d];
      nextTimer := nextTimer + 1;
    }

    method Edit(update: D -> D)
      modifies this
      ensures Model() == Step(old(Model()), Event.Edit(update))
    {
      value := update(value);
      ScheduleSave(value);
    }

    method Replace(replacement: D)
      modifies this
      ensures Model() == Step(old(Model()), Event.Replace(replacement))
    {
      value := replacement;
      stored := Some(replacement);
    }

    method OnTimer(id: nat)
      requires id in armed
      modifies this
      ensures Model() == Step(old(Model()), TimerFires(id))
    {
      var d := armed[id];
      armed := armed - {id};
      saveTimer := None;
      stored := Some(d);
    }

    /** `hydrate` up to its await. */
    method Hydrate()
      modifies this
      ensures Model() == Step(old(Model()), HydrateStarts)
    {
      if hydrated {
        return;
      }
      loading := loading + [stored];
    }

    /** The rest of the `i`-th hydration in flight. */
    method OnStorageAnswer(i: nat)
      requires i < |loading|
      modifies this
      ensures Model() == Step(old(Model()), HydrateEnds(i))
    {
      if loading[i].Some? {
        value := loading[i].value;
      }
      hydrated := true;
      loading := loading[..i] + loading[i + 1..];
    }
  }
}
