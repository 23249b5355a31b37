/**
 * The cell-state vocabulary shared by the layout, the floating snapshot and
 * the transition animators, and the transition context handed to an animator.
 */
module CellTransitioning {
  import opened Options

  /** `UICollectionViewCellState`, an `Int`-backed enum. */
  datatype CellState = Unknown | Normal | Drag | StackBase | StackDrag

  /** The raw value Swift assigns: the cases in declaration order, from 0. */
  function RawValue(s: CellState): (r: nat)
    ensures r < 5
  {
    match s
    case Unknown => 0
    case Normal => 1
    case Drag => 2
    case StackBase => 3
    case StackDrag => 4
  }

  /** Swift's failable `init?(rawValue:)`. */
  function FromRawValue(r: int): (s: Option<CellState>)
    ensures s.Some? <==> 0 <= r < 5
    ensures s.Some? ==> RawValue(s.value) == r
  {
    if r == 0 then Some(Unknown)
    else if r == 1 then Some(Normal)
    else if r == 2 then Some(Drag)
    else if r == 3 then Some(StackBase)
    else if r == 4 then Some(StackDrag)
    else None
  }

  /** Raw values are a bijection between the five states and 0..4. */
  lemma RawValueRoundTrip(s: CellState)
    ensures FromRawValue(RawValue(s)) == Some(s)
  {
  }

  lemma RawValueInjective(s: CellState, t: CellState)
    ensures RawValue(s) == RawValue(t) ==> s == t
  {
    RawValueRoundTrip(s);
    RawValueRoundTrip(t);
  }

  /** `UITransitionContextCellStateKey`. */
  datatype StateKey = From | To

  /**
   * `UICollectionViewCellContext`: the state dictionary and the animation
   * duration. The context's cell is a UIKit object and is not modelled.
   */
  datatype CellContext = CellContext(stateDict: map<StateKey, CellState>, animationDuration: real)

  /** A context as freshly created: from and to both normal, duration 0.25 s. */
  function NewContext(): (c: CellContext)
    ensures c.stateDict.Keys == {From, To}
    ensures c.stateDict[From] == Normal && c.stateDict[To] == Normal
    ensures c.animationDuration == 0.25
  {
    CellContext(map[From := Normal, To := Normal], 0.25)
  }

  /** `stateFor(key:)`: the stored state, or `.normal` when the key is absent. */
  function StateFor(c: CellContext, key: StateKey): (s: CellState)
    ensures key in c.stateDict ==> s == c.stateDict[key]
    ensures key !in c.stateDict ==> s == Normal
  {
    if key in c.stateDict then c.stateDict[key] else Normal
  }

  /** A fresh context reports `.normal` for both keys and a 0.25 s duration. */
  lemma NewContextDefaults(key: StateKey)
    ensures StateFor(NewContext(), key) == Normal
    ensures NewContext().animationDuration == 0.25
  {
  }

  /** The context the layout builds for a transition: a fresh one with both keys replaced. */
  function TransitionContext(from: CellState, to: CellState, duration: real): (c: CellContext)
    ensures StateFor(c, From) == from && StateFor(c, To) == to
    ensures c.animationDuration == duration
  {
    NewContext().(stateDict := map[From := from, To := to], animationDuration := duration)
  }
}
