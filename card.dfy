/**
 * Card (Card.cs): one card's input and lifecycle state machine.
 *
 * The card's mutable state is kept in the fields of class Card; CardState is the same state as a
 * value, and the functions below (MouseEnter, MouseUp, HpSet, ...) say, state to state, what each
 * handler of Card.cs does.  Every method of the class is proved to move its fields exactly as the
 * corresponding function says, and the lemmas state what the source promises about those functions.
 *
 * Presentation is reduced to the last requested target of the position and rotation tweens, the
 * SortingGroup order and the transform's z.  The tween completion callback that MoveTo wires to
 * OnMoveComplete is the flag `settlePending`; its firing is the event FinishMove.  The three
 * delegates are one flag, `subscribed`, and each handler returns the delegate it fired.
 */
module Cards {
  import opened Geometry
  import opened Layout
  import opened Counters

  /** The card data a card is initialised from (CardData in CardDataSO.cs). */
  datatype CardData = CardData(cardName: string, cost: int, attack: int, hp: int, illustration: string, description: string)

  /** Which delegate a handler invoked: onCardDrag, onCardDrop, onCardRemove, or none. */
  datatype Signal = NoSignal | CardDrag | CardDrop | CardRemove

  /** Height a hovered hand card is raised by (`dy` in OnMouseEnter). */
  const HoverLift: real := 1.0

  /** Sorting order of a hovered card, above every slot of a zone. */
  const HoverSortingOrder: int := 30

  /** The fields of one card, as a value. */
  datatype CardState = CardState(
    isDragged: bool,
    isUp: bool,
    isInHand: bool,
    ignoreEvents: bool,
    isDead: bool,
    subscribed: bool,
    homePosition: Vec2,
    homeRotation: real,
    homeSortingOrder: int,
    position: Vec2,        // last target given to the x/y position tweens (or set directly)
    rotation: real,        // last target given to the rotation tween
    sortingOrder: int,     // SortingGroup.sortingOrder
    depth: int,            // transform.position.z
    settlePending: bool)   // the live x tween carries OnComplete(OnMoveComplete)

  /** A handler's effect: the new state and the delegate it fired. */
  datatype Reaction = Reaction(state: CardState, signal: Signal)

  /** The state of a card just instantiated from the prefab: every flag clear, every pose at zero. */
  const Initial: CardState :=
    CardState(false, false, false, false, false, false, Zero, 0.0, 0, Zero, 0.0, 0, 0, false)

  /** A dead card is locked for good and has no settle callback pending. */
  predicate Consistent(s: CardState)
  {
    s.isDead ==> s.ignoreEvents && !s.settlePending
  }

  /** The home pose. */
  function HomeOf(s: CardState): Pose
  {
    Pose(s.homePosition, s.homeRotation, s.homeSortingOrder)
  }

  /** Rotate: restart the rotation tween towards v. */
  function Rotated(s: CardState, v: real): (r: CardState)
    ensures r.rotation == v
    ensures HomeOf(r) == HomeOf(s) && r.position == s.position && r.settlePending == s.settlePending
  {
    s.(rotation := v)
  }

  /** MoveTo: kill the position tweens (and with them any pending settle callback), start new ones
      towards p, and wire OnMoveComplete only when asked to and the card is alive. */
  function MovedTo(s: CardState, p: Vec2, ignoreEventsOnMove: bool): (r: CardState)
    ensures r.position == p
    ensures r.settlePending <==> ignoreEventsOnMove && !s.isDead
    ensures HomeOf(r) == HomeOf(s) && r.rotation == s.rotation
    ensures Consistent(s) ==> Consistent(r)
  {
    s.(position := p, settlePending := ignoreEventsOnMove && !s.isDead)
  }

  /** SetRotation. */
  function WithRotation(s: CardState, v: real, setAsHome: bool): (r: CardState)
    ensures r.rotation == v
    ensures r.homeRotation == if setAsHome then v else s.homeRotation
    ensures r.homePosition == s.homePosition && r.position == s.position && r.settlePending == s.settlePending
  {
    var t := Rotated(s, v);
    if setAsHome then t.(homeRotation := v) else t
  }

  /** SetPosition. */
  function WithPosition(s: CardState, p: Vec2, setAsHome: bool, ignoreEventsOnMove: bool): (r: CardState)
    ensures r.position == p
    ensures r.homePosition == if setAsHome then p else s.homePosition
    ensures r.homeRotation == s.homeRotation && r.rotation == s.rotation
    ensures Consistent(s) ==> Consistent(r)
  {
    var t := MovedTo(s, p, ignoreEventsOnMove);
    if setAsHome then t.(homePosition := p) else t
  }

  /** SetSortingOrder: the sorting order, the depth `z = -value`, and the home order if asked. */
  function WithSortingOrder(s: CardState, v: int, setAsHome: bool): (r: CardState)
    ensures r.sortingOrder == v && r.depth == -v
    ensures r.homeSortingOrder == if setAsHome then v else s.homeSortingOrder
    ensures r.position == s.position && r.rotation == s.rotation && r.settlePending == s.settlePending
  {
    s.(sortingOrder := v, depth := -v, homeSortingOrder := if setAsHome then v else s.homeSortingOrder)
  }

  /** KillAllTweens: every tween stops, so a pending settle callback never fires. */
  function TweensKilled(s: CardState): (r: CardState)
    ensures !r.settlePending
    ensures r.ignoreEvents == s.ignoreEvents && r.isDead == s.isDead && HomeOf(r) == HomeOf(s)
    ensures Consistent(s) ==> Consistent(r)
  {
    s.(settlePending := false)
  }

  /** The live x tween finishes: if OnMoveComplete was wired it runs and clears the lockout. */
  function MoveCompleted(s: CardState): (r: CardState)
    ensures !r.settlePending
    ensures r.ignoreEvents == (s.ignoreEvents && !s.settlePending)
    ensures r.isDead == s.isDead && HomeOf(r) == HomeOf(s)
    ensures Consistent(s) ==> Consistent(r)
  {
    if s.settlePending then s.(ignoreEvents := false, settlePending := false) else s
  }

  /** OnMouseEnter. */
  function MouseEnter(s: CardState): (r: CardState)
    ensures r.isUp == (s.isUp || (!s.ignoreEvents && !s.isDragged))
    ensures r.isDragged == s.isDragged && r.ignoreEvents == s.ignoreEvents && r.isDead == s.isDead && r.isInHand == s.isInHand
    ensures r.settlePending ==> s.settlePending
  {
    if s.ignoreEvents || s.isUp || s.isDragged then s
    else
      var up := s.(isUp := true);
      var raised := if up.isInHand then MovedTo(Rotated(up, 0.0), up.homePosition.Plus(Vec2(0.0, HoverLift)), false) else up;
      WithSortingOrder(raised, HoverSortingOrder, false)
  }

  /** OnMouseExit. */
  function MouseExit(s: CardState): (r: CardState)
    ensures r.isUp == (s.isUp && (s.ignoreEvents || s.isDragged))
    ensures r.isDragged == s.isDragged && r.ignoreEvents == s.ignoreEvents && r.isDead == s.isDead && r.isInHand == s.isInHand
    ensures r.settlePending ==> s.settlePending
  {
    if s.ignoreEvents || !s.isUp || s.isDragged then s
    else
      var down := s.(isUp := false);
      WithSortingOrder(MovedTo(Rotated(down, down.homeRotation), down.homePosition, false), down.homeSortingOrder, false)
  }

  /** OnMouseDown. */
  function MouseDown(s: CardState): (r: Reaction)
    ensures r.signal == CardDrag <==> !s.ignoreEvents && s.subscribed
    ensures r.signal == CardDrag || r.signal == NoSignal
    ensures r.state.isDragged == (s.isDragged || !s.ignoreEvents)
    ensures r.state.ignoreEvents == s.ignoreEvents && HomeOf(r.state) == HomeOf(s)
  {
    if s.ignoreEvents then Reaction(s, NoSignal)
    else Reaction(s.(isDragged := true), if s.subscribed then CardDrag else NoSignal)
  }

  /** OnMouseUp. */
  function MouseUp(s: CardState): (r: Reaction)
    ensures r.signal == CardDrop <==> !s.ignoreEvents && s.subscribed
    ensures r.signal == CardDrop || r.signal == NoSignal
    ensures r.state.ignoreEvents
    ensures r.state.isDragged == (s.isDragged && s.ignoreEvents)
  {
    if s.ignoreEvents then Reaction(s, NoSignal)
    else Reaction(s.(isDragged := false, ignoreEvents := true), if s.subscribed then CardDrop else NoSignal)
  }

  /** OnMouseDrag: the state is unchanged, only the drag delegate may fire. */
  function MouseDrag(s: CardState): (sig: Signal)
    ensures sig == CardDrag || sig == NoSignal
    ensures !s.subscribed ==> sig == NoSignal
  {
    if s.ignoreEvents && !s.isDragged then NoSignal
    else if s.subscribed then CardDrag else NoSignal
  }

  /** SetHP's effect on the card's flags (the hp counter itself is a separate Counter). */
  function HpSet(s: CardState, v: int): (r: Reaction)
    ensures r.signal == CardRemove <==> v <= 0
    ensures v <= 0 ==> r.state.isDead && r.state.ignoreEvents && !r.state.settlePending
    ensures v > 0 ==> r == Reaction(s, NoSignal)
  {
    if v <= 0 then Reaction(TweensKilled(s).(ignoreEvents := true, isDead := true), CardRemove)
    else Reaction(s, NoSignal)
  }

  /** What can happen to a card, one handler or setter call at a time. */
  datatype Event =
    | HoverEnter
    | HoverExit
    | Press
    | Release
    | DragMove
    | SetHp(hp: int)
    | SetRot(angle: real, rotAsHome: bool)
    | SetPos(target: Vec2, posAsHome: bool, lockUntilSettled: bool)
    | DragToward(point: Vec2)
    | SetOrder(order: int, orderAsHome: bool)
    | TweenDone

  /** One event's effect. */
  function Apply(s: CardState, e: Event): (r: Reaction)
    ensures r.state.isDead == (s.isDead || (e.SetHp? && e.hp <= 0))
    ensures r.signal == CardRemove <==> e.SetHp? && e.hp <= 0
  {
    match e
    case HoverEnter => Reaction(MouseEnter(s), NoSignal)
    case HoverExit => Reaction(MouseExit(s), NoSignal)
    case Press => MouseDown(s)
    case Release => MouseUp(s)
    case DragMove => Reaction(s, MouseDrag(s))
    case SetHp(v) => HpSet(s, v)
    case SetRot(v, h) => Reaction(WithRotation(s, v, h), NoSignal)
    case SetPos(p, h, l) => Reaction(WithPosition(s, p, h, l), NoSignal)
    case DragToward(p) => Reaction(MovedTo(s, p, false), NoSignal)
    case SetOrder(v, h) => Reaction(WithSortingOrder(s, v, h), NoSignal)
    case TweenDone => Reaction(MoveCompleted(s), NoSignal)
  }

  /** The final state and the delegates fired, in order, by a sequence of events. */
  datatype Trace = Trace(state: CardState, signals: seq<Signal>)

  function Run(s: CardState, events: seq<Event>): Trace
    decreases |events|
  {
    if events == [] then Trace(s, [])
    else
      var r := Apply(s, events[0]);
      var t := Run(r.state, events[1..]);
      Trace(t.state, [r.signal] + t.signals)
  }

  /** Hovering never moves the home pose. */
  lemma HoverKeepsHome(s: CardState)
    ensures HomeOf(MouseEnter(s)) == HomeOf(s)
    ensures HomeOf(MouseExit(s)) == HomeOf(s)
  {
  }

  /** Enter is ignored while locked, raised or dragged; otherwise the card is raised, drawn on top
      at order 30, and a hand card is turned upright and lifted above its home position. */
  lemma EnterEffect(s: CardState)
    ensures s.ignoreEvents || s.isUp || s.isDragged ==> MouseEnter(s) == s
    ensures !(s.ignoreEvents || s.isUp || s.isDragged) ==>
      && MouseEnter(s).isUp
      && MouseEnter(s).sortingOrder == HoverSortingOrder
      && MouseEnter(s).depth == -HoverSortingOrder
      && (s.isInHand ==> MouseEnter(s).rotation == 0.0 && MouseEnter(s).position == Vec2(s.homePosition.x, s.homePosition.y + HoverLift))
      && (!s.isInHand ==> MouseEnter(s).rotation == s.rotation && MouseEnter(s).position == s.position)
  {
  }

  /** Exit after a granted Enter is a round trip: the card is lowered onto exactly its home pose and
      home order, and every flag is what it was before the hover. */
  lemma HoverRoundTrip(s: CardState)
    requires !s.ignoreEvents && !s.isUp && !s.isDragged
    ensures MouseExit(MouseEnter(s)).isUp == false
    ensures MouseExit(MouseEnter(s)).position == s.homePosition
    ensures MouseExit(MouseEnter(s)).rotation == s.homeRotation
    ensures MouseExit(MouseEnter(s)).sortingOrder == s.homeSortingOrder
    ensures MouseExit(MouseEnter(s)).depth == -s.homeSortingOrder
    ensures MouseExit(MouseEnter(s)).(position := s.position, rotation := s.rotation, sortingOrder := s.sortingOrder,
                                       depth := s.depth, settlePending := s.settlePending) == s
  {
  }

  /** Exit is ignored unless the card is raised, unlocked and not dragged; a granted exit lowers
      the card onto exactly its current home pose and home order, whatever set that home. */
  lemma ExitGuard(s: CardState)
    ensures !(s.isUp && !s.ignoreEvents && !s.isDragged) ==> MouseExit(s) == s
    ensures s.isUp && !s.ignoreEvents && !s.isDragged ==>
      && !MouseExit(s).isUp
      && MouseExit(s).position == s.homePosition && MouseExit(s).rotation == s.homeRotation
      && MouseExit(s).sortingOrder == s.homeSortingOrder && MouseExit(s).depth == -s.homeSortingOrder
  {
  }

  /** Press and release do nothing while locked; otherwise press starts the drag and release ends
      it, locks the card until its next settle, and fires the drop. */
  lemma PressRelease(s: CardState)
    ensures s.ignoreEvents ==> MouseDown(s) == Reaction(s, NoSignal) && MouseUp(s) == Reaction(s, NoSignal)
    ensures !s.ignoreEvents ==> MouseDown(s).state.isDragged && MouseDown(s).state.(isDragged := s.isDragged) == s
    ensures !s.ignoreEvents && s.subscribed ==> MouseDown(s).signal == CardDrag && MouseUp(s).signal == CardDrop
    ensures !s.ignoreEvents ==> !MouseUp(s).state.isDragged && MouseUp(s).state.ignoreEvents
  {
  }

  /** A drag event fires unless the card is locked and not dragged, so a locked card that is still
      dragged keeps firing it. */
  lemma DragWhileLocked(s: CardState)
    requires s.subscribed
    ensures MouseDrag(s) == CardDrag <==> !s.ignoreEvents || s.isDragged
  {
  }

  /** Each setter changes its home field only when asked to, and repeating a call changes nothing. */
  lemma SettersIdempotent(s: CardState, v: real, p: Vec2, o: int, h: bool, l: bool)
    ensures !h ==> HomeOf(WithRotation(s, v, h)) == HomeOf(s) && HomeOf(WithPosition(s, p, h, l)) == HomeOf(s)
    ensures !h ==> HomeOf(WithSortingOrder(s, o, h)) == HomeOf(s)
    ensures h ==> WithRotation(s, v, h).homeRotation == v && WithPosition(s, p, h, l).homePosition == p
    ensures h ==> WithSortingOrder(s, o, h).homeSortingOrder == o
    ensures WithSortingOrder(s, o, h).depth == -o
    ensures WithRotation(WithRotation(s, v, h), v, h) == WithRotation(s, v, h)
    ensures WithPosition(WithPosition(s, p, h, l), p, h, l) == WithPosition(s, p, h, l)
    ensures WithSortingOrder(WithSortingOrder(s, o, h), o, h) == WithSortingOrder(s, o, h)
  {
  }

  /** The settle callback is wired only for a locking move of a live card, and the next move or
      KillAllTweens cancels it. */
  lemma SettleWiring(s: CardState, p: Vec2, l: bool)
    ensures MovedTo(s, p, l).settlePending <==> l && !s.isDead
    ensures !MovedTo(MovedTo(s, p, true), p, false).settlePending
    ensures !TweensKilled(MovedTo(s, p, true)).settlePending
  {
  }

  /** Every SetHP with v <= 0 kills the card and fires onCardRemove, dead or not: death is not idempotent. */
  lemma DeathNotIdempotent(s: CardState, v: int)
    requires v <= 0
    ensures HpSet(s, v).signal == CardRemove
    ensures HpSet(HpSet(s, v).state, v).signal == CardRemove
    ensures HpSet(s, v).state.isDead && HpSet(s, v).state.ignoreEvents
  {
  }

  /** The lockout is released by nothing but the completion of a pending settle move. */
  lemma {:induction false} OnlySettleUnlocks(s: CardState, e: Event)
    requires s.ignoreEvents && !Apply(s, e).state.ignoreEvents
    ensures e == TweenDone && s.settlePending
  {
    match e
    case HoverEnter =>
    case HoverExit =>
    case Press =>
    case Release =>
    case DragMove =>
    case SetHp(_) =>
    case SetRot(_, _) =>
    case SetPos(_, _, _) =>
    case DragToward(_) =>
    case SetOrder(_, _) =>
    case TweenDone =>
  }

  /** Every event keeps a card consistent, and no event brings a dead card back. */
  lemma ApplyConsistent(s: CardState, e: Event)
    requires Consistent(s)
    ensures Consistent(Apply(s, e).state)
    ensures s.isDead ==> Apply(s, e).state.isDead
  {
    match e
    case HoverEnter =>
    case HoverExit =>
    case Press =>
    case Release =>
    case DragMove =>
    case SetHp(_) =>
    case SetRot(_, _) =>
    case SetPos(_, _, _) =>
    case DragToward(_) =>
    case SetOrder(_, _) =>
    case TweenDone =>
  }

  /** One event on a dead card: it stays dead and locked, its drag flags are frozen, and it fires
      neither onCardDrop nor, unless it was dragged, onCardDrag. */
  lemma ApplyDead(s: CardState, e: Event)
    requires s.isDead && Consistent(s)
    ensures Apply(s, e).state.isDead && Apply(s, e).state.ignoreEvents && !Apply(s, e).state.settlePending
    ensures Apply(s, e).state.isDragged == s.isDragged && Apply(s, e).state.isUp == s.isUp
    ensures Apply(s, e).signal != CardDrop
    ensures !s.isDragged ==> Apply(s, e).signal != CardDrag
  {
    match e
    case HoverEnter =>
    case HoverExit =>
    case Press =>
    case Release =>
    case DragMove =>
    case SetHp(_) =>
    case SetRot(_, _) =>
    case SetPos(_, _, _) =>
    case DragToward(_) =>
    case SetOrder(_, _) =>
    case TweenDone =>
  }

  /** Once dead, always dead and locked, whatever happens: hover, press and release become no-ops,
      `isDragged` and `isUp` are frozen, and onCardDrop never fires again.  So a card that dies while
      dragged is never dropped, and a dead card fires drag events exactly when it was dragged. */
  lemma {:induction false} DeathIsFinal(s: CardState, events: seq<Event>)
    requires s.isDead && Consistent(s)
    ensures Run(s, events).state.isDead && Run(s, events).state.ignoreEvents
    ensures !Run(s, events).state.settlePending
    ensures Run(s, events).state.isDragged == s.isDragged
    ensures Run(s, events).state.isUp == s.isUp
    ensures CardDrop !in Run(s, events).signals
    ensures !s.isDragged ==> CardDrag !in Run(s, events).signals
    decreases |events|
  {
    if events != [] {
      var r := Apply(s, events[0]);
      ApplyConsistent(s, events[0]);
      ApplyDead(s, events[0]);
      DeathIsFinal(r.state, events[1..]);
    }
  }

  /** A consistent card stays consistent along any sequence of events. */
  lemma {:induction false} RunConsistent(s: CardState, events: seq<Event>)
    requires Consistent(s)
    ensures Consistent(Run(s, events).state)
    ensures |Run(s, events).signals| == |events|
    decreases |events|
  {
    if events != [] {
      ApplyConsistent(s, events[0]);
      RunConsistent(Apply(s, events[0]).state, events[1..]);
    }
  }

  class Card {
    const hpCounter: Counter
    const attackCounter: Counter
    const costCounter: Counter

    var isDragged: bool
    var isUp: bool
    var isInHand: bool
    var ignoreEvents: bool
    var isDead: bool
    var subscribed: bool

    var homePosition: Vec2
    var homeRotation: real
    var homeSortingOrder: int

    var position: Vec2
    var rotation: real
    var sortingOrder: int
    var depth: int
    var settlePending: bool

    /** The card's fields as a value. */
    function State(): CardState
      reads this
    {
      CardState(isDragged, isUp, isInHand, ignoreEvents, isDead, subscribed,
                homePosition, homeRotation, homeSortingOrder,
                position, rotation, sortingOrder, depth, settlePending)
    }

    /** The three stat counters are separate objects. */
    predicate Distinct()
    {
      hpCounter != attackCounter && hpCounter != costCounter && attackCounter != costCounter
    }

    /** The stat counters show the data's cost, attack and hp. */
    /** The three stats the card shows: cost, attack, hp. */
    function Stats(): (int, int, int)
      reads hpCounter, attackCounter, costCounter
    {
      (costCounter.value, attackCounter.value, hpCounter.value)
    }

    predicate Shows(data: CardData)
      reads hpCounter, attackCounter, costCounter
    {
      Stats() == (data.cost, data.attack, data.hp)
    }

    ghost predicate Valid()
      reads this
    {
      Distinct() && Consistent(State())
    }

    /** Instantiate followed by Init(data).  Init calls SetHP before the owner has subscribed, so a
        card dealt with hp <= 0 would invoke a null onCardRemove: the data must have hp > 0. */
    constructor (data: CardData)
      requires data.hp > 0
      ensures Valid()
      ensures State() == Initial
      ensures fresh(hpCounter) && fresh(attackCounter) && fresh(costCounter)
      ensures Shows(data)
    {
      hpCounter := new Counter();
      attackCounter := new Counter();
      costCounter := new Counter();
      isDragged, isUp, isInHand, ignoreEvents, isDead, subscribed := false, false, false, false, false, false;
      homePosition, homeRotation, homeSortingOrder := Zero, 0.0, 0;
      position, rotation, sortingOrder, depth, settlePending := Zero, 0.0, 0, 0, false;
      new;
      SetCost(data.cost);
      SetAttack(data.attack);
      var _ := SetHP(data.hp);
    }

    /** The owner adds its handlers to onCardDrag, onCardDrop and onCardRemove. */
    method Subscribe()
      requires Valid()
      modifies this
      ensures Valid()
      ensures State() == old(State()).(subscribed := true)
    {
      subscribed := true;
    }

    method OnMouseEnter()
      requires Valid()
      modifies this
      ensures Valid()
      ensures State() == MouseEnter(old(State()))
    {
      if ignoreEvents || isUp || isDragged {
        return;
      }
      isUp := true;
      if isInHand {
        Rotate(0.0);
        MoveTo(homePosition.Plus(Vec2(0.0, HoverLift)), false);
      }
      SetSortingOrder(HoverSortingOrder, false);
    }

    method OnMouseExit()
      requires Valid()
      modifies this
      ensures Valid()
      ensures State() == MouseExit(old(State()))
    {
      if ignoreEvents || !isUp || isDragged {
        return;
      }
      isUp := false;
      Rotate(homeRotation);
      MoveTo(homePosition, false);
      SetSortingOrder(homeSortingOrder, false);
    }

    method OnMouseDown() returns (sig: Signal)
      requires Valid()
      modifies this
      ensures Valid()
      ensures Reaction(State(), sig) == MouseDown(old(State()))
    {
      if ignoreEvents {
        return NoSignal;
      }
      isDragged := true;
      sig := if subscribed then CardDrag else NoSignal;
    }

    method OnMouseUp() returns (sig: Signal)
      requires Valid()
      modifies this
      ensures Valid()
      ensures Reaction(State(), sig) == MouseUp(old(State()))
    {
      if ignoreEvents {
        return NoSignal;
      }
      isDragged := false;
      ignoreEvents := true;
      sig := if subscribed then CardDrop else NoSignal;
    }

    /** OnMouseDrag changes nothing; it only reports whether onCardDrag fired. */
    method OnMouseDrag() returns (sig: Signal)
      ensures sig == MouseDrag(State())
    {
      if ignoreEvents && !isDragged {
        return NoSignal;
      }
      sig := if subscribed then CardDrag else NoSignal;
    }

    method SetRotation(value: real, setAsHome: bool)
      requires Valid()
      modifies this
      ensures Valid()
      ensures State() == WithRotation(old(State()), value, setAsHome)
    {
      Rotate(value);
      if setAsHome {
        homeRotation := value;
      }
    }

    method Rotate(value: real)
      requires Valid()
      modifies this
      ensures Valid()
      ensures State() == Rotated(old(State()), value)
    {
      rotation := value;
    }

    method SetPosition(value: Vec2, setAsHome: bool, ignoreEventsOnMove: bool)
      requires Valid()
      modifies this
      ensures Valid()
      ensures State() == WithPosition(old(State()), value, setAsHome, ignoreEventsOnMove)
    {
      MoveTo(value, ignoreEventsOnMove);
      if setAsHome {
        homePosition := value;
      }
    }

    method DragTo(pos: Vec2)
      requires Valid()
      modifies this
      ensures Valid()
      ensures State() == MovedTo(old(State()), pos, false)
    {
      MoveTo(pos, false);
    }

    method MoveTo(target: Vec2, ignoreEventsOnMove: bool)
      requires Valid()
      modifies this
      ensures Valid()
      ensures State() == MovedTo(old(State()), target, ignoreEventsOnMove)
    {
      settlePending := false;
      position := target;
      if !isDead {
        if ignoreEventsOnMove {
          settlePending := true;
        }
      }
    }

    /** The live x tween of the last MoveTo finishes, running its OnComplete callback if one was wired. */
    method FinishMove()
      requires Valid()
      modifies this
      ensures Valid()
      ensures State() == MoveCompleted(old(State()))
    {
      if settlePending {
        settlePending := false;
        OnMoveComplete();
      }
    }

    /** The callback itself; it is wired only on a live card and unwired by death. */
    method OnMoveComplete()
      requires Valid() && !isDead
      modifies this
      ensures Valid()
      ensures State() == old(State()).(ignoreEvents := false)
    {
      ignoreEvents := false;
    }

    /** SetHP: stores the value; at v <= 0 the card dies and invokes onCardRemove with a plain
        Invoke, which needs a subscriber. */
    method SetHP(value: int) returns (sig: Signal)
      requires Valid()
      requires value <= 0 ==> subscribed
      modifies this, hpCounter
      ensures Valid()
      ensures hpCounter.value == value
      ensures attackCounter.value == old(attackCounter.value) && costCounter.value == old(costCounter.value)
      ensures Reaction(State(), sig) == HpSet(old(State()), value)
    {
      hpCounter.SetValue(value);
      sig := NoSignal;
      if value <= 0 {
        KillAllTweens();
        ignoreEvents := true;
        isDead := true;
        sig := CardRemove;
      }
    }

    method SetCost(value: int)
      modifies costCounter
      requires Valid()
      ensures costCounter.value == value
      ensures attackCounter.value == old(attackCounter.value) && hpCounter.value == old(hpCounter.value)
    {
      costCounter.SetValue(value);
    }

    method SetAttack(value: int)
      modifies attackCounter
      requires Valid()
      ensures attackCounter.value == value
      ensures costCounter.value == old(costCounter.value) && hpCounter.value == old(hpCounter.value)
    {
      attackCounter.SetValue(value);
    }

    /** The owner's write to the public field `isInHand`. */
    method SetInHand(v: bool)
      requires Valid()
      modifies this
      ensures Valid()
      ensures State() == old(State()).(isInHand := v)
    {
      isInHand := v;
    }

    /** The owner's write to `transform.position`: a Vector2 assignment, so the depth becomes 0. */
    method PlaceAt(p: Vec2)
      requires Valid()
      modifies this
      ensures Valid()
      ensures State() == old(State()).(position := p, depth := 0)
    {
      position := p;
      depth := 0;
    }

    method SetSortingOrder(value: int, setAsHome: bool)
      requires Valid()
      modifies this
      ensures Valid()
      ensures State() == WithSortingOrder(old(State()), value, setAsHome)
    {
      sortingOrder := value;
      depth := -value;
      if setAsHome {
        homeSortingOrder := value;
      }
    }

    method KillAllTweens()
      requires Valid()
      modifies this
      ensures Valid()
      ensures State() == TweensKilled(old(State()))
    {
      settlePending := false;
    }
  }
}
