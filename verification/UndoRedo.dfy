/**
 * The undo/redo hook: a window of at most `maxHistory` entries. The hook is one state atom; the history it stands
 * for is the same operations without a window.
 */
module UndoRedo {

  datatype History<T> = History(entries: seq<T>, index: nat)

  datatype Op<!T> = SetState(update: T -> T) | Undo | Redo | Reset(initial: T)

  /** `a.slice(-max)`: note that `slice(-0)` is the whole array. */
  function SliceLast<T>(a: seq<T>, max: nat): seq<T> {
    if max == 0 || max >= |a| then a else a[|a| - max..]
  }

  predicate Wf<T>(h: History<T>) {
    h.index < |h.entries|
  }

  function Current<T>(h: History<T>): T
    requires Wf(h)
  {
    h.entries[h.index]
  }

  function Start<T>(initial: T): History<T> {
    History([initial], 0)
  }

  /** Drop what could be redone, append, and keep the window. */
  function Push<T>(h: History<T>, max: nat, x: T): (r: History<T>)
    requires Wf(h)
    ensures Wf(r)
  {
    var entries := SliceLast(h.entries[..h.index + 1] + [x], max);
    History(entries, |entries| - 1)
  }

  /** One operation of the hook. */
  function Step<T>(h: History<T>, max: nat, op: Op<T>): (r: History<T>)
    requires Wf(h)
    ensures Wf(r)
  {
    match op
    case SetState(update) => Push(h, max, update(Current(h)))
    case Undo => h.(index := if h.index == 0 then 0 else h.index - 1)
    case Redo => h.(index := if h.index + 1 < |h.entries| then h.index + 1 else |h.entries| - 1)
    case Reset(initial) => Start(initial)
  }

  function Run<T>(h: History<T>, max: nat, ops: seq<Op<T>>): (r: History<T>)
    requires Wf(h)
    ensures Wf(r)
    decreases ops
  {
    if ops == [] then h else Run(Step(h, max, ops[0]), max, ops[1..])
  }

  // ---- One operation ----

  /**
   * An update shows its result, with nothing to redo. Before it come the states that could be undone to and the one
   * it was applied to, as many of them as the window leaves room for, the latest ones.
   */
  lemma SetStateExact<T>(h: History<T>, max: nat, update: T -> T)
    requires Wf(h)
    ensures
      var h' := Step(h, max, SetState(update));
      var undos := if max == 0 || h.index + 2 <= max then h.index + 1 else max - 1;
      && Current(h') == update(Current(h)) && h'.index == undos && |h'.entries| == undos + 1
      && h'.entries[..undos] == h.entries[h.index + 1 - undos..h.index + 1]
  {
    var whole := h.entries[..h.index + 1] + [update(Current(h))];
    assert whole[h.index + 1] == update(Current(h));
  }

  /** Undoing an update shows the state it was applied to, unless the window holds a single state. */
  lemma UndoOfUpdateExact<T>(h: History<T>, max: nat, update: T -> T)
    requires Wf(h)
    ensures Current(Step(Step(h, max, SetState(update)), max, Undo)) ==
      if max == 1 then update(Current(h)) else Current(h)
  {
    SetStateExact(h, max, update);
    var h' := Step(h, max, SetState(update));
    if max != 1 {
      assert h'.entries[h'.index - 1] == h'.entries[..h'.index][h'.index - 1] == h.entries[h.index];
    }
  }

  /** Undo and redo change what is shown by one entry and keep every entry; a reset leaves its argument alone. */
  lemma MovesExact<T>(h: History<T>, max: nat, initial: T)
    requires Wf(h)
    ensures Step(h, max, Undo).entries == Step(h, max, Redo).entries == h.entries
    ensures Current(Step(h, max, Undo)) == h.entries[if h.index > 0 then h.index - 1 else 0]
    ensures Current(Step(h, max, Redo)) == if h.index < |h.entries| - 1 then h.entries[h.index + 1] else Current(h)
    ensures var r := Step(h, max, Reset(initial)); r.entries == [initial] && r.index == 0 && Current(r) == initial
  {
  }

  // ---- Two stacks ----

  /** The textbook undo: what can be undone, the latest last, what is shown, and what can be redone, the next first. */
  datatype Stacks<T> = Stacks(past: seq<T>, present: T, future: seq<T>)

  function StacksStep<T>(s: Stacks<T>, op: Op<T>): Stacks<T> {
    match op
    case SetState(update) => Stacks(s.past + [s.present], update(s.present), [])
    case Undo =>
      if s.past == [] then s
      else Stacks(s.past[..|s.past| - 1], s.past[|s.past| - 1], [s.present] + s.future)
    case Redo =>
      if s.future == [] then s else Stacks(s.past + [s.present], s.future[0], s.future[1..])
    case Reset(initial) => Stacks([], initial, [])
  }

  function StacksRun<T>(s: Stacks<T>, ops: seq<Op<T>>): Stacks<T>
    decreases ops
  {
    if ops == [] then s else StacksRun(StacksStep(s, ops[0]), ops[1..])
  }

  function StacksOf<T>(h: History<T>): Stacks<T>
    requires Wf(h)
  {
    Stacks(h.entries[..h.index], h.entries[h.index], h.entries[h.index + 1..])
  }

  lemma StepIsStacks<T>(h: History<T>, op: Op<T>)
    requires Wf(h)
    ensures StacksOf(Step(h, 0, op)) == StacksStep(StacksOf(h), op)
  {
    match op
    case SetState(update) =>
      SetStateExact(h, 0, update);
      assert h.entries[..h.index] + [h.entries[h.index]] == h.entries[..h.index + 1];
    case Undo =>
    case Redo =>
      assert h.entries[..h.index] + [h.entries[h.index]] == h.entries[..h.index + 1];
    case Reset(initial) =>
  }

  /** The unbounded history is two stacks, over every run. */
  lemma {:induction false} RunIsStacks<T>(h: History<T>, ops: seq<Op<T>>)
    requires Wf(h)
    ensures StacksOf(Run(h, 0, ops)) == StacksRun(StacksOf(h), ops)
    decreases ops
  {
    if ops != [] {
      StepIsStacks(h, ops[0]);
      RunIsStacks(Step(h, 0, ops[0]), ops[1..]);
    }
  }

  // ---- The window ----

  predicate Bounded<T>(h: History<T>, max: nat) {
    Wf(h) && |h.entries| <= max
  }

  /** Every reachable state holds 1 to `max` entries with the index among them, so the hook's fallbacks are dead. */
  lemma {:induction false} RunStaysBounded<T>(h: History<T>, max: nat, ops: seq<Op<T>>)
    requires max >= 1 && Bounded(h, max)
    ensures Bounded(Run(h, max, ops), max)
    decreases ops
  {
    if ops != [] {
      RunStaysBounded(Step(h, max, ops[0]), max, ops[1..]);
    }
  }

  // ---- Simulation by the unbounded history ----

  /** `b` is `u` from some offset on, at the same place. */
  predicate WindowOf<T(==)>(b: History<T>, u: History<T>, offset: nat) {
    && Wf(b) && Wf(u) && offset <= |u.entries|
    && b.entries == u.entries[offset..]
    && u.index == b.index + offset
  }

  /** The window's oldest entry is current, and an older one was dropped. */
  predicate AtFloor<T>(b: History<T>, offset: nat) {
    b.index == 0 && offset > 0
  }

  function Dropped<T>(b: History<T>, max: nat, op: Op<T>, offset: nat): nat {
    match op
    case SetState(_) => offset + (if max == 0 || max >= b.index + 2 then 0 else b.index + 2 - max)
    case Reset(_) => 0
    case _ => offset
  }

  /** Slicing a suffix to the window is dropping from the whole. */
  lemma SliceLastOfSuffix<T>(a: seq<T>, offset: nat, max: nat)
    requires offset <= |a|
    ensures SliceLast(a[offset..], max) ==
      a[offset + (if max == 0 || max >= |a| - offset then 0 else |a| - offset - max)..]
  {
  }

  lemma SuffixOfGrown<T>(b: seq<T>, u: seq<T>, index: nat, offset: nat, x: T)
    requires offset <= |u| && b == u[offset..] && index < |b|
    ensures b[..index + 1] + [x] == (u[..index + offset + 1] + [x])[offset..]
  {
  }

  lemma PushSimulates<T>(b: History<T>, u: History<T>, offset: nat, max: nat, x: T)
    requires WindowOf(b, u, offset)
    ensures var d := offset + (if max == 0 || max >= b.index + 2 then 0 else b.index + 2 - max);
      WindowOf(Push(b, max, x), Push(u, 0, x), d)
    ensures Current(Push(b, max, x)) == x == Current(Push(u, 0, x))
  {
    var grown := u.entries[..u.index + 1] + [x];
    SuffixOfGrown(b.entries, u.entries, b.index, offset, x);
    SliceLastOfSuffix(grown, offset, max);
  }

  lemma AlignedStep<T>(b: History<T>, u: History<T>, offset: nat, max: nat, op: Op<T>)
    requires WindowOf(b, u, offset) && !(op.Undo? && AtFloor(b, offset))
    ensures WindowOf(Step(b, max, op), Step(u, 0, op), Dropped(b, max, op, offset))
    ensures Current(Step(b, max, op)) == Current(Step(u, 0, op))
  {
    match op
    case SetState(update) => PushSimulates(b, u, offset, max, update(Current(b)));
    case Reset(initial) => assert [initial][0..] == [initial];
    case Undo =>
    case Redo =>
  }

  /** The offset is a matter of lengths: an undo at the floor leaves none that aligns. */
  lemma FloorUndoMisaligns<T>(b: History<T>, u: History<T>, offset: nat, max: nat, o: nat)
    requires WindowOf(b, u, offset) && AtFloor(b, offset)
    ensures !WindowOf(Step(b, max, Undo), Step(u, 0, Undo), o)
  {
    assert |b.entries| == |u.entries| - offset;
    assert o <= |u.entries| ==> |u.entries[o..]| == |u.entries| - o;
  }

  /**
   * Every operation except an undo at the floor keeps the window aligned, with the same current state; that one
   * leaves no offset at which it is aligned.
   */
  lemma StepSimulates<T>(b: History<T>, u: History<T>, offset: nat, max: nat, op: Op<T>)
    requires WindowOf(b, u, offset)
    ensures (exists o :: WindowOf(Step(b, max, op), Step(u, 0, op), o)) <==> !(op.Undo? && AtFloor(b, offset))
    ensures !(op.Undo? && AtFloor(b, offset)) ==>
      && WindowOf(Step(b, max, op), Step(u, 0, op), Dropped(b, max, op, offset))
      && Current(Step(b, max, op)) == Current(Step(u, 0, op))
  {
    if op.Undo? && AtFloor(b, offset) {
      forall o ensures !WindowOf(Step(b, max, op), Step(u, 0, op), o) {
        FloorUndoMisaligns(b, u, offset, max, o);
      }
    } else {
      AlignedStep(b, u, offset, max, op);
    }
  }

  /** The run never undoes at the window's floor. */
  predicate AvoidsFloor<T>(b: History<T>, offset: nat, max: nat, ops: seq<Op<T>>)
    requires Wf(b)
    decreases ops
  {
    ops != [] ==>
      && !(ops[0].Undo? && AtFloor(b, offset))
      && AvoidsFloor(Step(b, max, ops[0]), Dropped(b, max, ops[0], offset), max, ops[1..])
  }

  /** Such a run shows the state the unbounded history shows, whatever updates, redos and resets it makes. */
  lemma {:induction false} RunSimulates<T>(b: History<T>, u: History<T>, offset: nat, max: nat, ops: seq<Op<T>>)
    requires WindowOf(b, u, offset) && AvoidsFloor(b, offset, max, ops)
    ensures Current(Run(b, max, ops)) == Current(Run(u, 0, ops))
    ensures exists o :: WindowOf(Run(b, max, ops), Run(u, 0, ops), o)
    decreases ops
  {
    if ops == [] {
      assert WindowOf(Run(b, max, ops), Run(u, 0, ops), offset);
    } else {
      StepSimulates(b, u, offset, max, ops[0]);
      RunSimulates(Step(b, max, ops[0]), Step(u, 0, ops[0]), Dropped(b, max, ops[0], offset), max, ops[1..]);
    }
  }

  /** From the start, such a run shows what the unbounded history and the two stacks show. */
  lemma HookSimulates<T>(initial: T, max: nat, ops: seq<Op<T>>)
    requires AvoidsFloor(Start(initial), 0, max, ops)
    ensures Current(Run(Start(initial), max, ops)) == Current(Run(Start(initial), 0, ops))
    ensures Current(Run(Start(initial), max, ops)) == StacksRun(Stacks([], initial, []), ops).present
  {
    RunIsStacks(Start(initial), ops);
    assert StacksOf(Start(initial)) == Stacks([], initial, []);
    assert WindowOf(Start(initial), Start(initial), 0);
    RunSimulates(Start(initial), Start(initial), 0, max, ops);
  }

  /** At the floor the hook stays put where the unbounded history steps back. */
  lemma FloorUndoDiffers<T>(b: History<T>, u: History<T>, offset: nat, max: nat)
    requires WindowOf(b, u, offset) && AtFloor(b, offset)
    ensures Step(b, max, Undo) == b
    ensures Current(Step(u, 0, Undo)) == u.entries[offset - 1] && Current(u) == u.entries[offset] == Current(b)
  {
  }

  // ---- Counting undos ----

  function Times<T>(op: Op<T>, k: nat): seq<Op<T>> {
    if k == 0 then [] else [op] + Times(op, k - 1)
  }

  lemma {:induction false} ManyUndos<T>(h: History<T>, max: nat, k: nat)
    requires Wf(h)
    ensures Run(h, max, Times(Undo, k)) == h.(index := if k <= h.index then h.index - k else 0)
    decreases k
  {
    if k > 0 {
      assert Times<T>(Undo, k)[0] == Undo && Times<T>(Undo, k)[1..] == Times(Undo, k - 1);
      ManyUndos(Step(h, max, Undo), max, k - 1);
    }
  }

  lemma {:induction false} ManyRedos<T>(h: History<T>, max: nat, k: nat)
    requires Wf(h)
    ensures Run(h, max, Times(Redo, k)) ==
      h.(index := if h.index + k < |h.entries| then h.index + k else |h.entries| - 1)
    decreases k
  {
    if k > 0 {
      assert Times<T>(Redo, k)[0] == Redo && Times<T>(Redo, k)[1..] == Times(Redo, k - 1);
      ManyRedos(Step(h, max, Redo), max, k - 1);
    }
  }

  /** `k` undos then `k` redos restore the state exactly when there were `k` undos to make, or nothing to redo. */
  lemma UndosThenRedosExact<T>(h: History<T>, max: nat, k: nat)
    requires Wf(h)
    ensures Run(Run(h, max, Times(Undo, k)), max, Times(Redo, k)) == h
       <==> k <= h.index || h.index == |h.entries| - 1
  {
    ManyUndos(h, max, k);
    ManyRedos(Run(h, max, Times(Undo, k)), max, k);
  }

  predicate AllSets<T>(ops: seq<Op<T>>) {
    forall i :: 0 <= i < |ops| ==> ops[i].SetState?
  }

  lemma {:induction false} SetsFill<T>(h: History<T>, max: nat, ops: seq<Op<T>>)
    requires max >= 1 && Bounded(h, max) && h.index == |h.entries| - 1 && AllSets(ops)
    ensures var r := Run(h, max, ops);
      r.index == |r.entries| - 1 && |r.entries| == (if |h.entries| + |ops| <= max then |h.entries| + |ops| else max)
    decreases ops
  {
    if ops != [] {
      assert ops[0].SetState?;
      SetsFill(Step(h, max, ops[0]), max, ops[1..]);
    }
  }

  lemma {:induction false} RunConcat<T>(h: History<T>, max: nat, a: seq<Op<T>>, b: seq<Op<T>>)
    requires Wf(h)
    ensures Run(h, max, a + b) == Run(Run(h, max, a), max, b)
    decreases a
  {
    if a == [] {
      assert a + b == b;
    } else {
      assert (a + b)[0] == a[0] && (a + b)[1..] == a[1..] + b;
      RunConcat(Step(h, max, a[0]), max, a[1..], b);
    }
  }

  lemma {:induction false} SetsSimulate<T>(b: History<T>, u: History<T>, offset: nat, max: nat, ops: seq<Op<T>>)
    requires WindowOf(b, u, offset) && AllSets(ops) && max >= 1
    requires b.index == |b.entries| - 1 && |b.entries| <= max && u.index == |u.entries| - 1
    ensures var b', u' := Run(b, max, ops), Run(u, 0, ops);
      && |u'.entries| == |u.entries| + |ops| && |b'.entries| <= |u'.entries|
      && WindowOf(b', u', |u'.entries| - |b'.entries|)
    decreases ops
  {
    if ops != [] {
      assert ops[0].SetState?;
      StepSimulates(b, u, offset, max, ops[0]);
      SetsSimulate(Step(b, max, ops[0]), Step(u, 0, ops[0]), Dropped(b, max, ops[0], offset), max, ops[1..]);
    }
  }

  /** The floor is reached: from the start, by as many updates as the window holds or more, and the undos they leave. */
  lemma FloorIsReached<T>(initial: T, max: nat, ops: seq<Op<T>>)
    requires max >= 1 && |ops| >= max && AllSets(ops)
    ensures
      var run := ops + Times(Undo, max - 1);
      var b, u := Run(Start(initial), max, run), Run(Start(initial), 0, run);
      WindowOf(b, u, |ops| + 1 - max) && AtFloor(b, |ops| + 1 - max)
  {
    var start, undos := Start(initial), Times<T>(Undo, max - 1);
    assert WindowOf(start, start, 0);
    SetsFill(start, max, ops);
    SetsSimulate(start, start, 0, max, ops);
    var b, u := Run(start, max, ops), Run(start, 0, ops);
    RunConcat(start, max, ops, undos);
    RunConcat(start, 0, ops, undos);
    ManyUndos(b, max, max - 1);
    ManyUndos(u, 0, max - 1);
  }

  /** A reset then `n` updates leave exactly `min(n, max - 1)` undos, and nothing to redo. */
  lemma UndosAfterReset<T>(h: History<T>, max: nat, initial: T, ops: seq<Op<T>>)
    requires Wf(h) && max >= 1 && AllSets(ops)
    ensures var r := Run(Step(h, max, Reset(initial)), max, ops);
      r.index == (if |ops| <= max - 1 then |ops| else max - 1) && r.index == |r.entries| - 1
  {
    SetsFill(Start(initial), max, ops);
  }

  // ---- The hook ----

  class UndoRedoHook<T> {
    const maxHistory: nat
    var history: History<T>

    constructor (initial: T, maxHistory: nat)
      ensures history == Start(initial) && this.maxHistory == maxHistory
    {
      this.maxHistory := maxHistory;
      history := History([initial], 0);
    }

    function State(): T
      requires Wf(history)
      reads this
    {
      history.entries[history.index]
    }

    method SetState(update: T -> T)
      requires Wf(history)
      modifies this
      ensures history == Step(old(history), maxHistory, Op.SetState(update))
    {
      var trimmed := history.entries[..history.index + 1];
      var entries := SliceLast(trimmed + [update(State())], maxHistory);
      history := History(entries, |entries| - 1);
    }

    method Undo()
      requires Wf(history)
      modifies this
      ensures history == Step(old(history), maxHistory, Op.Undo)
    {
      history := history.(index := if history.index == 0 then 0 else history.index - 1);
    }

    method Redo()
      requires Wf(history)
      modifies this
      ensures history == Step(old(history), maxHistory, Op.Redo)
    {
      var last := |history.entries| - 1;
      history := history.(index := if history.index + 1 < |history.entries| then history.index + 1 else last);
    }

    method Reset(initial: T)
      modifies this
      ensures Wf(history) && history == Start(initial)
    {
      history := History([initial], 0);
    }

    /** What the buttons show: whether an undo, or a redo, would move. */
    method Buttons() returns (canUndo: bool, canRedo: bool)
      requires Wf(history)
      ensures canUndo <==> Step(history, maxHistory, Op.Undo) != history
      ensures canRedo <==> Step(history, maxHistory, Op.Redo) != history
    {
      canUndo := history.index > 0;
      canRedo := history.index < |history.entries| - 1;
    }
  }
}
