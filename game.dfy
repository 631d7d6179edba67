/**
 * Game (Game.cs): the board.  It owns every dealt card (`_cards`), the ordered zone lists
 * `_cardsInHand` and `_cardsOnTable`, the `_draggedCard` slot, the `_currentCard` index of the red
 * button, and the two regroup coroutines, each modelled as a cursor.
 *
 * The board invariant is stated on values (module BoardInvariant) over the zones, the list of
 * dealt cards and `states`, a ghost snapshot of every dealt card's state that each method keeps
 * equal to the cards' fields (Coupled) and whose new value each method states in terms of the old.
 *
 * Unity's inputs are parameters: the card data and their number (random in the source), the
 * button's random stat and value, the mouse's world position and the table collider's overlap test.
 * Card signals come back from the card's handler and the Mouse*Card methods pass them to the
 * Game handler subscribed to that delegate, as the source's delegate calls do.
 */
module Games {
  import opened Geometry
  import opened Layout
  import opened Zones
  import opened Counters
  import opened Cards
  import opened BoardInvariant

  /** `_deckPosition`: where a dealt card appears before its first move. */
  const DeckPosition: Vec2 := Vec2(-5.0, -10.0)

  /** StartGame deals `Random.Range(4, 7)` cards: at least MinCards, fewer than MaxCards. */
  const MinCards: nat := 4
  const MaxCards: nat := 7

  /** A card just dealt: initialised, at the deck (the Vector2 assignment also sets z to 0), marked
      in hand and subscribed to the board's three handlers. */
  const DealtState: CardState := Initial.(isInHand := true, subscribed := true, position := DeckPosition, depth := 0)

  /** The index after `i` in a list of `n`: one on, wrapping to 0 at the end. */
  function Successor(i: int, n: nat): (j: int)
    requires 0 <= i < n
    ensures 0 <= j < n
  {
    if i + 1 >= n then 0 else i + 1
  }

  /** The wrap-around is addition modulo the list length. */
  lemma SuccessorMod(i: int, n: nat)
    requires 0 <= i < n
    ensures Successor(i, n) == (i + 1) % n
  {
    if i + 1 < n {
      ModUnique(i + 1, n, 0, i + 1);
    } else {
      ModUnique(i + 1, n, 1, 0);
    }
  }

  /** The index reached from `i` after `k` presses of the red button. */
  function Pressed(i: int, n: nat, k: nat): (j: int)
    requires 0 <= i < n
    ensures 0 <= j < n
  {
    if k == 0 then i else Successor(Pressed(i, n, k - 1), n)
  }

  /** The button cycles through the cards in order: k presses from index i land on (i + k) mod n,
      so n presses in a row visit every card once. */
  lemma {:induction false} PressedCycles(i: int, n: nat, k: nat)
    requires 0 <= i < n
    ensures Pressed(i, n, k) == (i + k) % n
  {
    if k == 0 {
      ModUnique(i, n, 0, i);
    } else {
      PressedCycles(i, n, k - 1);
      var a := i + k - 1;
      StepMod(a, n, a / n, a % n);
    }
  }

  /** One step from the remainder of `a` is the remainder of `a + 1`. */
  lemma StepMod(a: int, n: nat, q: int, r: int)
    requires 0 <= r < n && a == q * n + r
    ensures Successor(r, n) == (a + 1) % n
  {
    if r + 1 < n {
      ModUnique(a + 1, n, q, r + 1);
    } else {
      assert a + 1 == (q + 1) * n;
      ModUnique(a + 1, n, q + 1, 0);
    }
  }

  /** Division with remainder is unique. */
  lemma ModUnique(a: int, n: nat, q: int, r: int)
    requires 0 <= r < n && a == q * n + r
    ensures a % n == r
  {
    var q', r' := a / n, a % n;
    assert a == q' * n + r';
    assert (q - q') * n == r' - r;
    if q' < q {
      MulMono(q - q', n);
    } else if q' > q {
      MulMono(q' - q, n);
    }
  }

  lemma MulMono(d: int, n: int)
    requires d >= 1 && n >= 0
    ensures d * n >= n
  {
    assert d * n == (d - 1) * n + n;
  }

  /** The scene's anchors (the `_hand`, `_table` and `_grave` transforms) and the inspector steps. */
  datatype Scene = Scene(hand: Vec2, table: Vec2, grave: Vec2, steps: Steps)

  /** The snapshot after dealing the cards `dealt`, in order. */
  function Deal<T(==)>(st: map<T, CardState>, dealt: seq<T>): map<T, CardState>
    decreases |dealt|
  {
    if dealt == [] then st else Deal(st, dealt[..|dealt| - 1])[dealt[|dealt| - 1] := DealtState]
  }

  lemma DealOneMore<T>(st: map<T, CardState>, dealt: seq<T>, c: T)
    ensures Deal(st, dealt + [c]) == Deal(st, dealt)[c := DealtState]
  {
    assert (dealt + [c])[..|dealt|] == dealt;
  }

  /** Every dealt card is recorded in its dealt state; every other recorded card is left alone. */
  lemma {:induction false} DealtStates<T>(st: map<T, CardState>, dealt: seq<T>, c: T)
    ensures c in Deal(st, dealt) <==> c in st || c in dealt
    ensures c in dealt ==> Deal(st, dealt)[c] == DealtState
    ensures c !in dealt && c in st ==> Deal(st, dealt)[c] == st[c]
    decreases |dealt|
  {
    if dealt != [] {
      var init := dealt[..|dealt| - 1];
      assert dealt == init + [dealt[|dealt| - 1]];
      DealtStates(st, init, c);
    }
  }

  /** Recording a card twice keeps only the second state. */
  lemma Overwrite<T>(st: map<T, CardState>, c: T, s: CardState, s': CardState)
    ensures st[c := s][c := s'] == st[c := s']
  {
  }

  /** OnCardRemove's two setter calls: to the grave as home without the settle lock, rotation 0 as home. */
  function Buried(s: CardState, grave: Vec2): (r: CardState)
    ensures r.position == grave && r.homePosition == grave
    ensures r.rotation == 0.0 && r.homeRotation == 0.0
    ensures r.homeSortingOrder == s.homeSortingOrder
    ensures r.isDead == s.isDead && r.isInHand == s.isInHand && r.subscribed == s.subscribed
    ensures r.ignoreEvents == s.ignoreEvents && r.isDragged == s.isDragged && r.isUp == s.isUp
    ensures r.sortingOrder == s.sortingOrder && r.depth == s.depth
    ensures !r.settlePending
  {
    WithRotation(WithPosition(s, grave, true, false), 0.0, true)
  }

  /** The snapshot after both coroutines are restarted on the lists `hand` and `table`: each lays
      out its index 0 at once. */
  function Regrouped(st: map<Card, CardState>, hand: seq<Card>, table: seq<Card>, scene: Scene): map<Card, CardState>
  {
    StepZone(StepZone(st, hand, Some(0), true, scene.hand, scene.steps), table, Some(0), false, scene.table, scene.steps)
  }

  /** A card the red button sets to hp <= 0 is recorded dead and locked after OnCardRemove's
      regroup, wherever it was: in particular a dragged card that dies stays dead in the slot. */
  lemma KilledStaysDead(st: map<Card, CardState>, c: Card, v: int, hand: seq<Card>, table: seq<Card>, scene: Scene)
    requires c in st && v <= 0
    ensures c in Regrouped(st[c := Buried(HpSet(st[c], v).state, scene.grave)], hand, table, scene)
    ensures Regrouped(st[c := Buried(HpSet(st[c], v).state, scene.grave)], hand, table, scene)[c].isDead
    ensures Regrouped(st[c := Buried(HpSet(st[c], v).state, scene.grave)], hand, table, scene)[c].ignoreEvents
  {
  }

  class Game {
    const scene: Scene

    var cards: seq<Card>
    var hand: seq<Card>
    var table: seq<Card>
    var dragged: Option<Card>
    var currentCard: int
    var handCascade: Option<nat>
    var tableCascade: Option<nat>

    /** The state of every dealt card, as last recorded. */
    ghost var states: map<Card, CardState>

    /** The zones as a value. */
    function Zoning(): Board<Card>
      reads this`hand, this`table, this`dragged
    {
      Board(hand, table, dragged)
    }

    /** The stat counters of the card the red button acts on next. */
    ghost function Targeted(): set<object>
      reads this`cards, this`currentCard
    {
      if 0 <= currentCard < |cards| then {cards[currentCard].hpCounter, cards[currentCard].attackCounter, cards[currentCard].costCounter} else {}
    }

    /** The snapshot is the dealt cards' actual state. */
    ghost predicate Coupled()
      reads this`cards, this`states, cards
    {
      forall c :: c in cards ==> c in states && states[c] == c.State()
    }

    /** The board invariant, with `x` allowed to be dead and still listed. */
    ghost predicate SaneExcept(x: Option<Card>)
      reads this`cards, this`hand, this`table, this`dragged, this`currentCard, this`states
    {
      && SoundExcept(Zoning(), cards, states, x)
      && (forall c :: c in cards ==> c.Distinct())
      && currentCard >= 0
    }

    ghost predicate Sane()
      reads this`cards, this`hand, this`table, this`dragged, this`currentCard, this`states
    {
      SaneExcept(None)
    }

    ghost predicate HandLaid()
      reads this`hand, this`handCascade, this`states
    {
      LaidOut(hand, handCascade, states, true, scene.hand, scene.steps)
    }

    ghost predicate TableLaid()
      reads this`table, this`tableCascade, this`states
    {
      LaidOut(table, tableCascade, states, false, scene.table, scene.steps)
    }

    ghost predicate Valid()
      reads this, cards
    {
      Coupled() && Sane() && HandLaid() && TableLaid()
    }

    /** The dragged card has died: it can never be dropped, so the slot is never freed. */
    ghost predicate DragStuck()
      reads this`dragged, if dragged.Some? then {dragged.value} else {}
    {
      dragged.Some? && dragged.value.isDead
    }

    /** The snapshot is the actual state of every dealt card except `x`. */
    ghost predicate CoupledBut(x: Card)
      reads this`cards, this`states, cards
    {
      forall c :: c in cards && c != x ==> c in states && states[c] == c.State()
    }

    /** A dealt card of a sane board satisfies its own invariant. */
    lemma CardValid(c: Card)
      requires Coupled() && (SaneExcept(None) || SaneExcept(Some(c)))
      requires c in cards
      ensures c.Valid() && c.subscribed && c.State() == states[c]
    {
    }

    /** Record the new state of card `c`, changed in place by one of its own handlers without
        leaving its zone, dying or moving its home. */
    ghost method Record(c: Card)
      requires c in cards && c in states && c.Valid() && c.subscribed
      requires CoupledBut(c) && Sane() && HandLaid() && TableLaid()
      requires c.isInHand == states[c].isInHand && c.isDead == states[c].isDead
      requires HomeOf(c.State()) == HomeOf(states[c]) || dragged == Some(c)
      modifies this`states
      ensures Valid()
      ensures states == old(states)[c := c.State()]
    {
      TouchSound(Zoning(), cards, states, c, c.State(), handCascade, scene.hand, tableCascade, scene.table, scene.steps);
      states := states[c := c.State()];
    }

    /** The Game component before Start: no cards, no coroutine running. */
    constructor (scene: Scene)
      ensures Valid()
      ensures this.scene == scene
      ensures cards == [] && Zoning() == Dealt([]) && currentCard == 0
      ensures handCascade.None? && tableCascade.None?
    {
      this.scene := scene;
      cards, hand, table, dragged := [], [], [], None;
      currentCard := 0;
      handCascade, tableCascade := None, None;
      states := map[];
    }

    /** StartGame: deal the cards, then regroup. */
    method StartGame(data: seq<CardData>) returns (ghost dealt: seq<Card>)
      requires Coupled() && Sane()
      requires MinCards <= |data| < MaxCards
      requires forall d :: d in data ==> d.hp > 0
      modifies this`cards, this`hand, this`handCascade, this`tableCascade, this`states, cards
      ensures Valid()
      ensures |dealt| == |data| && cards == old(cards) + dealt
      ensures Zoning() == Board(old(hand) + dealt, old(table), old(dragged))
      ensures forall j :: 0 <= j < |dealt| ==> fresh(dealt[j])
      ensures forall j :: 0 <= j < |dealt| ==> dealt[j].Shows(data[j])
      ensures handCascade == Started(|hand|) && tableCascade == Started(|table|)
      ensures states == Regrouped(Deal(old(states), dealt), hand, table, scene)
    {
      dealt := CreateCards(data);
      label Dealt:
      RegroupCards();
      forall j | 0 <= j < |dealt| ensures dealt[j].Shows(data[j]) {
        assert cards[|old(cards)| + j] == dealt[j];
        assert dealt[j].Stats() == old@Dealt(dealt[j].Stats());
      }
    }

    /** RestartGame: forget every card and deal anew.  `_currentCard` and `_draggedCard` are kept. */
    method RestartGame(data: seq<CardData>)
      requires Valid()
      requires MinCards <= |data| < MaxCards
      requires forall d :: d in data ==> d.hp > 0
      modifies this`cards, this`hand, this`table, this`handCascade, this`tableCascade, this`states
      ensures Valid()
      ensures |cards| == |data| && forall i :: 0 <= i < |cards| ==> fresh(cards[i])
      ensures forall i :: 0 <= i < |data| ==> cards[i].Shows(data[i])
      ensures Zoning() == Board(cards, [], old(dragged))
      ensures handCascade == Started(|hand|) && tableCascade == Started(|table|)
      ensures states == Regrouped(Deal(map[], cards), hand, table, scene)
    {
      cards := [];
      hand := [];
      table := [];
      states := map[];
      ghost var dealt := StartGame(data);
      assert cards == dealt && hand == dealt;
    }

    /** CreateCards: one new card per data entry, each appended to `_cards` and to the hand. */
    method CreateCards(data: seq<CardData>) returns (ghost dealt: seq<Card>)
      requires Coupled() && Sane()
      requires forall d :: d in data ==> d.hp > 0
      modifies this`cards, this`hand, this`states
      ensures Coupled() && Sane()
      ensures |dealt| == |data| && cards == old(cards) + dealt && hand == old(hand) + dealt
      ensures states == Deal(old(states), dealt)
      ensures forall j :: 0 <= j < |dealt| ==> fresh(dealt[j]) && dealt[j].Shows(data[j])
    {
      dealt := [];
      for i := 0 to |data|
        invariant Coupled() && Sane()
        invariant cards == old(cards) + dealt && hand == old(hand) + dealt && |dealt| == i
        invariant states == Deal(old(states), dealt)
        invariant forall j :: 0 <= j < i ==> fresh(dealt[j]) && dealt[j].Shows(data[j])
      {
        var card := DealOne(data[i]);
        DealOneMore(old(states), dealt, card);
        assert (dealt + [card])[..i] == dealt;
        dealt := dealt + [card];
      }
    }

    /** One iteration of CreateCards: the card is initialised from its data (the constructor runs
        Init), put at the deck, marked in hand, subscribed, and appended to `_cards` and the hand. */
    method DealOne(data: CardData) returns (card: Card)
      requires Coupled() && Sane() && data.hp > 0
      modifies this`cards, this`hand, this`states
      ensures Coupled() && Sane()
      ensures fresh(card) && card.Shows(data)
      ensures cards == old(cards) + [card] && hand == old(hand) + [card]
      ensures states == old(states)[card := DealtState]
    {
      card := NewCard(data);
      DealSound(Zoning(), cards, states, card, card.State());
      cards, hand, states := cards + [card], hand + [card], states[card := card.State()];
    }

    /** The card itself: instantiated and initialised from its data (the constructor runs Init), put
        at the deck, marked in hand, and subscribed to the board's three handlers. */
    method NewCard(data: CardData) returns (card: Card)
      requires data.hp > 0
      ensures fresh(card) && fresh(card.hpCounter) && fresh(card.attackCounter) && fresh(card.costCounter)
      ensures card.Valid() && card.State() == DealtState && card.Shows(data)
    {
      card := new Card(data);
      card.PlaceAt(DeckPosition);
      card.SetInHand(true);
      card.Subscribe();
    }

    /** The red button: change one stat of `_cards[_currentCard]` and step round-robin to the next
        card.  If the index is out of range the list access throws and nothing changes (ok == false). */
    method OnRedButtonClick(param: int, value: int) returns (ok: bool)
      requires Valid()
      modifies this`currentCard, this`hand, this`table, this`handCascade, this`tableCascade, this`states, cards, Targeted()
      ensures Valid()
      ensures cards == old(cards) && dragged == old(dragged)
      ensures ok <==> old(currentCard) < |cards|
      ensures !ok ==> currentCard == old(currentCard) && Zoning() == old(Zoning()) && states == old(states)
      ensures ok ==> currentCard == Successor(old(currentCard), |cards|)
      ensures ok && 0 <= param <= 2 ==> Stat(cards[old(currentCard)], param) == value
      ensures ok ==> forall p :: 0 <= p <= 2 && p != param ==> Stat(cards[old(currentCard)], p) == old(Stat(cards[currentCard], p))
      ensures ok && param == 2 && value <= 0 ==>
        && Zoning() == AfterRemove(old(Zoning()), cards[old(currentCard)])
        && states == Regrouped(old(states)[cards[old(currentCard)] := Buried(HpSet(old(states)[cards[old(currentCard)]], value).state, scene.grave)], hand, table, scene)
        && handCascade == Started(|hand|) && tableCascade == Started(|table|)
      ensures !(ok && param == 2 && value <= 0) ==>
        && Zoning() == old(Zoning()) && states == old(states)
        && handCascade == old(handCascade) && tableCascade == old(tableCascade)
    {
      if currentCard >= |cards| {
        return false;
      }
      ok := true;
      Click(param, value);
    }

    /** The button with `_currentCard` in range. */
    method Click(param: int, value: int)
      requires Valid() && currentCard < |cards|
      modifies this`currentCard, this`hand, this`table, this`handCascade, this`tableCascade, this`states, cards, Targeted()
      ensures Valid()
      ensures cards == old(cards) && dragged == old(dragged)
      ensures currentCard == Successor(old(currentCard), |cards|)
      ensures 0 <= param <= 2 ==> Stat(cards[old(currentCard)], param) == value
      ensures forall p :: 0 <= p <= 2 && p != param ==> Stat(cards[old(currentCard)], p) == old(Stat(cards[currentCard], p))
      ensures param == 2 && value <= 0 ==>
        && Zoning() == AfterRemove(old(Zoning()), cards[old(currentCard)])
        && states == Regrouped(old(states)[cards[old(currentCard)] := Buried(HpSet(old(states)[cards[old(currentCard)]], value).state, scene.grave)], hand, table, scene)
        && handCascade == Started(|hand|) && tableCascade == Started(|table|)
      ensures !(param == 2 && value <= 0) ==>
        && Zoning() == old(Zoning()) && states == old(states)
        && handCascade == old(handCascade) && tableCascade == old(tableCascade)
    {
      var card := cards[currentCard];
      ApplyStat(card, param, value);
      NextCard();
    }

    /** The stat `param` names: 0 the cost, 1 the attack, 2 the hp. */
    function Stat(card: Card, param: int): int
      requires 0 <= param <= 2
      reads card.costCounter, card.attackCounter, card.hpCounter
    {
      if param == 0 then card.costCounter.value
      else if param == 1 then card.attackCounter.value
      else card.hpCounter.value
    }

    /** The button's branch on `param`. */
    method ApplyStat(card: Card, param: int, value: int)
      requires Valid() && card in cards
      modifies this`hand, this`table, this`handCascade, this`tableCascade, this`states, cards,
        card.costCounter, card.attackCounter, card.hpCounter
      ensures Valid() && dragged == old(dragged)
      ensures 0 <= param <= 2 ==> Stat(card, param) == value
      ensures forall p :: 0 <= p <= 2 && p != param ==> Stat(card, p) == old(Stat(card, p))
      ensures param == 2 && value <= 0 ==>
        && Zoning() == AfterRemove(old(Zoning()), card)
        && states == Regrouped(old(states)[card := Buried(HpSet(old(states)[card], value).state, scene.grave)], hand, table, scene)
        && handCascade == Started(|hand|) && tableCascade == Started(|table|)
      ensures !(param == 2 && value <= 0) ==>
        && Zoning() == old(Zoning()) && states == old(states)
        && handCascade == old(handCascade) && tableCascade == old(tableCascade)
    {
      CardValid(card);
      if param == 0 {
        card.SetCost(value);
      } else if param == 1 {
        card.SetAttack(value);
      } else if param == 2 {
        Wound(card, value);
      }
    }

    /** `_currentCard++`, wrapping to 0 at the end of `_cards`. */
    method NextCard()
      requires Valid() && 0 <= currentCard < |cards|
      modifies this`currentCard
      ensures Valid()
      ensures currentCard == Successor(old(currentCard), |cards|)
    {
      currentCard := currentCard + 1;
      if currentCard >= |cards| {
        currentCard := 0;
      }
    }

    /** SetHP from the red button: the hp counter changes and, when the value is not positive, the
        card dies and its onCardRemove reaches OnCardRemove. */
    method Wound(card: Card, value: int)
      requires Valid() && card in cards
      modifies this`hand, this`table, this`handCascade, this`tableCascade, this`states, cards, card.hpCounter
      ensures Valid()
      ensures card.hpCounter.value == value
      ensures value <= 0 ==>
        && Zoning() == AfterRemove(old(Zoning()), card)
        && states == Regrouped(old(states)[card := Buried(HpSet(old(states)[card], value).state, scene.grave)], hand, table, scene)
        && handCascade == Started(|hand|) && tableCascade == Started(|table|)
      ensures value > 0 ==>
        && Zoning() == old(Zoning()) && states == old(states)
        && handCascade == old(handCascade) && tableCascade == old(tableCascade)
    {
      CardValid(card);
      var sig := card.SetHP(value);
      if sig == CardRemove {
        Die(card);
      }
    }

    /** A listed card has just died in SetHP: its onCardRemove reaches OnCardRemove. */
    method Die(card: Card)
      requires card in cards && card in states && card.Valid() && card.subscribed && card.isDead
      requires CoupledBut(card) && Sane() && card.isInHand == states[card].isInHand
      modifies this`hand, this`table, this`handCascade, this`tableCascade, this`states, cards
      ensures Valid()
      ensures Zoning() == AfterRemove(old(Zoning()), card)
      ensures states == Regrouped(old(states)[card := Buried(old(card.State()), scene.grave)], hand, table, scene)
      ensures handCascade == Started(|hand|) && tableCascade == Started(|table|)
    {
      NoteDeath(card);
      Overwrite(old(states), card, card.State(), Buried(card.State(), scene.grave));
      OnCardRemove(card);
    }

    /** Record the death of a listed card: the invariant now allows it to be dead while listed. */
    ghost method NoteDeath(c: Card)
      requires c in cards && c in states && c.Valid() && c.subscribed && c.isDead
      requires CoupledBut(c) && Sane() && c.isInHand == states[c].isInHand
      modifies this`states
      ensures Coupled() && SaneExcept(Some(c))
      ensures states == old(states)[c := c.State()]
    {
      KillSound(Zoning(), cards, states, c, c.State());
      states := states[c := c.State()];
    }

    /** OnCardRemove: send the card to the grave with rotation 0, take it off both lists, regroup.
        The dragged slot is left alone. */
    method OnCardRemove(card: Card)
      requires Coupled() && SaneExcept(Some(card))
      requires card in cards && card.isDead
      modifies this`hand, this`table, this`handCascade, this`tableCascade, this`states, cards
      ensures Valid()
      ensures Zoning() == AfterRemove(old(Zoning()), card)
      ensures states == Regrouped(old(states)[card := Buried(old(states)[card], scene.grave)], hand, table, scene)
      ensures handCascade == Started(|hand|) && tableCascade == Started(|table|)
    {
      Bury(card);
      RegroupCards();
    }

    /** OnCardRemove up to RegroupCards. */
    method Bury(card: Card)
      requires Coupled() && SaneExcept(Some(card))
      requires card in cards && card.isDead
      modifies this`hand, this`table, this`states, card
      ensures Coupled() && Sane()
      ensures Zoning() == AfterRemove(old(Zoning()), card)
      ensures states == old(states)[card := Buried(old(states)[card], scene.grave)]
    {
      CardValid(card);
      ToGrave(card);
      ghost var b', st' := AfterRemove(Zoning(), card), states[card := card.State()];
      RemoveSound(Zoning(), cards, states, card, card.State());
      // List.Remove leaves a list without the card unchanged, so the source's Contains guards
      // are folded into RemoveFirst.
      states, hand, table := st', RemoveFirst(hand, card), RemoveFirst(table, card);
      assert Zoning() == b';
    }

    /** OnCardRemove's two setter calls on the card. */
    method ToGrave(card: Card)
      requires card.Valid()
      modifies card
      ensures card.Valid()
      ensures card.State() == Buried(old(card.State()), scene.grave)
    {
      card.SetPosition(scene.grave, true, false);
      card.SetRotation(0.0, true);
    }

    /** OnCardDrag: with no card dragged the card leaves its list, becomes the dragged card and the
        zones regroup; a card other than the dragged one is ignored; the dragged card follows the mouse. */
    method OnCardDrag(card: Card, mouse: Vec2)
      requires Valid() && card in cards
      modifies this`hand, this`table, this`dragged, this`handCascade, this`tableCascade, this`states, cards
      ensures Valid()
      ensures Zoning() == AfterDrag(old(Zoning()), card)
      ensures old(dragged).None? ==>
        && handCascade == Started(|hand|) && tableCascade == Started(|table|)
        && states == Regrouped(old(states), hand, table, scene)[card := MovedTo(old(states)[card], mouse, false)]
      ensures old(dragged) == Some(card) ==>
        && handCascade == old(handCascade) && tableCascade == old(tableCascade)
        && states == old(states)[card := MovedTo(old(states)[card], mouse, false)]
      ensures old(dragged).Some? && old(dragged) != Some(card) ==>
        && handCascade == old(handCascade) && tableCascade == old(tableCascade)
        && states == old(states)
    {
      if dragged.None? {
        TakeUp(card);
      } else if dragged.value != card {
        return;
      }
      Follow(card, mouse);
    }

    /** OnCardDrag's first branch up to the move: the card leaves its list, fills the slot, and
        the zones regroup without it. */
    method TakeUp(card: Card)
      requires Valid() && card in cards && dragged.None?
      modifies this`hand, this`table, this`dragged, this`handCascade, this`tableCascade, this`states, cards
      ensures Valid()
      ensures Zoning() == AfterDrag(old(Zoning()), card)
      ensures handCascade == Started(|hand|) && tableCascade == Started(|table|)
      ensures states == Regrouped(old(states), hand, table, scene) && states[card] == old(states)[card]
    {
      DragSound(Zoning(), cards, states, card);
      hand := RemoveFirst(hand, card);
      table := RemoveFirst(table, card);
      dragged := Some(card);
      ghost var st := states;
      RegroupCards();
      StepLeavesOthers(st, hand, Some(0), true, scene.hand, scene.steps, card);
      StepLeavesOthers(StepZone(st, hand, Some(0), true, scene.hand, scene.steps), table, Some(0), false, scene.table, scene.steps, card);
    }

    /** The dragged card, in no zone, moves to the mouse. */
    method Follow(card: Card, mouse: Vec2)
      requires Valid() && card in cards && dragged == Some(card)
      modifies this`states, card
      ensures Valid()
      ensures states == old(states)[card := MovedTo(old(states)[card], mouse, false)]
    {
      CardValid(card);
      card.DragTo(mouse);
      Record(card);
    }

    /** OnCardDrop: only the dragged card is dropped, onto the end of the table if it touches the
        table collider and onto the end of the hand otherwise; then the zones regroup and the slot
        is emptied.  (The source empties the slot after RegroupCards, which never reads it.) */
    method OnCardDrop(card: Card, overTable: bool)
      requires Valid() && card in cards && !card.isDead
      modifies this`hand, this`table, this`dragged, this`handCascade, this`tableCascade, this`states, cards
      ensures Valid()
      ensures Zoning() == AfterDrop(old(Zoning()), card, overTable)
      ensures old(dragged) == Some(card) ==>
        && handCascade == Started(|hand|) && tableCascade == Started(|table|)
        && states == Regrouped(old(states)[card := old(states)[card].(isInHand := !overTable)], hand, table, scene)
      ensures old(dragged) != Some(card) ==>
        && handCascade == old(handCascade) && tableCascade == old(tableCascade)
        && states == old(states)
    {
      if dragged == Some(card) {
        PutDown(card, overTable);
        RegroupCards();
      }
    }

    /** OnCardDrop's branch up to RegroupCards. */
    method PutDown(card: Card, overTable: bool)
      requires Coupled() && Sane() && card in cards && !card.isDead && dragged == Some(card)
      modifies this`hand, this`table, this`dragged, this`states, card
      ensures Coupled() && Sane()
      ensures Zoning() == AfterDrop(old(Zoning()), card, overTable)
      ensures states == old(states)[card := old(states)[card].(isInHand := !overTable)]
    {
      CardValid(card);
      ghost var b', st' := AfterDrop(Zoning(), card, overTable), states[card := states[card].(isInHand := !overTable)];
      DropSound(Zoning(), cards, states, card, overTable);
      // Both branches of the source set isInHand before appending.
      card.SetInHand(!overTable);
      Append(card, overTable);
      dragged, states := None, states[card := card.State()];
      assert Zoning() == b' && states == st';
    }

    /** The card joins the end of the table list or of the hand list. */
    method Append(card: Card, overTable: bool)
      modifies this`hand, this`table
      ensures hand == if overTable then old(hand) else old(hand) + [card]
      ensures table == if overTable then old(table) + [card] else old(table)
    {
      if overTable {
        table := table + [card];
      } else {
        hand := hand + [card];
      }
    }

    /** RegroupCards: stop both coroutines and start them again from index 0, each running its first
        step at once. */
    method RegroupCards()
      requires Coupled() && Sane()
      modifies this`handCascade, this`tableCascade, this`states, cards
      ensures Valid()
      ensures handCascade == Started(|hand|) && tableCascade == Started(|table|)
      ensures states == Regrouped(old(states), hand, table, scene)
      ensures forall i :: 0 <= i < |cards| ==> cards[i].Stats() == old(cards[i].Stats())
    {
      handCascade, tableCascade := Some(0), Some(0);
      TickHand();
      TickTable();
    }

    /** One resumption of the hand coroutine: lay out the next index of the live hand list, or stop. */
    method TickHand()
      requires Valid()
      modifies this`handCascade, this`states, cards
      ensures Valid()
      ensures handCascade == Advance(old(handCascade), |hand|)
      ensures states == StepZone(old(states), hand, old(handCascade), true, scene.hand, scene.steps)
    {
      if handCascade.Some? && handCascade.value < |hand| {
        LayOutHand(handCascade.value);
      } else if handCascade.Some? {
        handCascade := None;
      }
    }

    /** The hand coroutine's body for index `n`: hand card n goes to its fan slot as its home, and the
        coroutine moves on to index n + 1. */
    method LayOutHand(n: nat)
      requires Valid() && handCascade == Some(n) && n < |hand|
      modifies this`handCascade, this`states, cards
      ensures Valid() && handCascade == Some(n + 1)
      ensures states == StepZone(old(states), hand, Some(n), true, scene.hand, scene.steps)
    {
      TickStep(Zoning(), cards, states, true, scene.hand, scene.steps, n, tableCascade, scene.table);
      var card := hand[n];
      assert card in hand;
      CardValid(card);
      LayOut(card, HandSlot(scene.hand, n, |hand|, scene.steps));
      states, handCascade := StepZone(states, hand, Some(n), true, scene.hand, scene.steps), Some(n + 1);
    }

    /** One resumption of the table coroutine. */
    method TickTable()
      requires Valid()
      modifies this`tableCascade, this`states, cards
      ensures Valid()
      ensures tableCascade == Advance(old(tableCascade), |table|)
      ensures states == StepZone(old(states), table, old(tableCascade), false, scene.table, scene.steps)
    {
      if tableCascade.Some? && tableCascade.value < |table| {
        LayOutTable(tableCascade.value);
      } else if tableCascade.Some? {
        tableCascade := None;
      }
    }

    /** The table coroutine's body for index `n`: table card n goes to its row slot as its home, and the
        coroutine moves on to index n + 1. */
    method LayOutTable(n: nat)
      requires Valid() && tableCascade == Some(n) && n < |table|
      modifies this`tableCascade, this`states, cards
      ensures Valid() && tableCascade == Some(n + 1)
      ensures states == StepZone(old(states), table, Some(n), false, scene.table, scene.steps)
    {
      TickStep(Zoning(), cards, states, false, scene.table, scene.steps, n, handCascade, scene.hand);
      var card := table[n];
      assert card in table;
      CardValid(card);
      LayOut(card, TableSlot(scene.table, n, |table|, scene.steps));
      states, tableCascade := StepZone(states, table, Some(n), false, scene.table, scene.steps), Some(n + 1);
    }

    /** The body of either coroutine for one card. */
    method LayOut(card: Card, pose: Pose)
      requires card.Valid()
      modifies card
      ensures card.Valid()
      ensures card.State() == Assigned(old(card.State()), pose)
    {
      card.SetRotation(pose.rotation, true);
      card.SetPosition(pose.position, true, true);
      card.SetSortingOrder(pose.sortingOrder, true);
    }

    /** Unity's OnMouseEnter on a dealt card. */
    method MouseEnterCard(c: Card)
      requires Valid() && c in cards
      modifies c, this`states
      ensures Valid()
      ensures states == old(states)[c := MouseEnter(old(states)[c])]
    {
      CardValid(c);
      HoverKeepsHome(c.State());
      c.OnMouseEnter();
      Record(c);
    }

    /** Unity's OnMouseExit on a dealt card. */
    method MouseExitCard(c: Card)
      requires Valid() && c in cards
      modifies c, this`states
      ensures Valid()
      ensures states == old(states)[c := MouseExit(old(states)[c])]
    {
      CardValid(c);
      HoverKeepsHome(c.State());
      c.OnMouseExit();
      Record(c);
    }

    /** Unity's OnMouseDown on a dealt card; a fired onCardDrag reaches OnCardDrag. */
    method MouseDownCard(c: Card, mouse: Vec2)
      requires Valid() && c in cards
      modifies this`hand, this`table, this`dragged, this`handCascade, this`tableCascade, this`states, cards
      ensures Valid()
      ensures Zoning() == if MouseDown(old(states[c])).signal == CardDrag then AfterDrag(old(Zoning()), c) else old(Zoning())
      ensures var r := MouseDown(old(states[c]));
        r.signal != CardDrag || (old(dragged).Some? && old(dragged) != Some(c)) ==>
          && handCascade == old(handCascade) && tableCascade == old(tableCascade)
          && states == old(states)[c := r.state]
      ensures var r := MouseDown(old(states[c]));
        r.signal == CardDrag && old(dragged).None? ==>
          && handCascade == Started(|hand|) && tableCascade == Started(|table|)
          && states == Regrouped(old(states)[c := r.state], hand, table, scene)[c := MovedTo(r.state, mouse, false)]
      ensures var r := MouseDown(old(states[c]));
        r.signal == CardDrag && old(dragged) == Some(c) ==>
          && handCascade == old(handCascade) && tableCascade == old(tableCascade)
          && states == old(states)[c := MovedTo(r.state, mouse, false)]
    {
      CardValid(c);
      ghost var r := MouseDown(c.State());
      var sig := c.OnMouseDown();
      Record(c);
      if sig == CardDrag {
        OnCardDrag(c, mouse);
        Overwrite(old(states), c, r.state, MovedTo(r.state, mouse, false));
      }
    }

    /** Unity's OnMouseUp on a dealt card; a fired onCardDrop reaches OnCardDrop with the table
        collider's overlap test.  A dead dragged card never fires it, so it is never released. */
    method MouseUpCard(c: Card, overTable: bool)
      requires Valid() && c in cards
      modifies this`hand, this`table, this`dragged, this`handCascade, this`tableCascade, this`states, cards
      ensures Valid()
      ensures Zoning() == if MouseUp(old(states[c])).signal == CardDrop then AfterDrop(old(Zoning()), c, overTable) else old(Zoning())
      ensures old(DragStuck()) ==> dragged == old(dragged)
      ensures var r := MouseUp(old(states[c]));
        !(r.signal == CardDrop && old(dragged) == Some(c)) ==>
          && handCascade == old(handCascade) && tableCascade == old(tableCascade)
          && states == old(states)[c := r.state]
      ensures var r := MouseUp(old(states[c]));
        r.signal == CardDrop && old(dragged) == Some(c) ==>
          && handCascade == Started(|hand|) && tableCascade == Started(|table|)
          && states == Regrouped(old(states)[c := r.state.(isInHand := !overTable)], hand, table, scene)
    {
      CardValid(c);
      ghost var r := MouseUp(c.State());
      var sig := c.OnMouseUp();
      Record(c);
      if sig == CardDrop {
        OnCardDrop(c, overTable);
        Overwrite(old(states), c, r.state, r.state.(isInHand := !overTable));
      }
    }

    /** Unity's OnMouseDrag on a dealt card; a fired onCardDrag reaches OnCardDrag. */
    method MouseDragCard(c: Card, mouse: Vec2)
      requires Valid() && c in cards
      modifies this`hand, this`table, this`dragged, this`handCascade, this`tableCascade, this`states, cards
      ensures Valid()
      ensures Zoning() == if MouseDrag(old(states[c])) == CardDrag then AfterDrag(old(Zoning()), c) else old(Zoning())
      ensures MouseDrag(old(states[c])) != CardDrag || (old(dragged).Some? && old(dragged) != Some(c)) ==>
        && handCascade == old(handCascade) && tableCascade == old(tableCascade)
        && states == old(states)
      ensures MouseDrag(old(states[c])) == CardDrag && old(dragged).None? ==>
        && handCascade == Started(|hand|) && tableCascade == Started(|table|)
        && states == Regrouped(old(states), hand, table, scene)[c := MovedTo(old(states[c]), mouse, false)]
      ensures MouseDrag(old(states[c])) == CardDrag && old(dragged) == Some(c) ==>
        && handCascade == old(handCascade) && tableCascade == old(tableCascade)
        && states == old(states)[c := MovedTo(old(states[c]), mouse, false)]
    {
      CardValid(c);
      var sig := c.OnMouseDrag();
      if sig == CardDrag {
        OnCardDrag(c, mouse);
      }
    }

    /** The live x tween of a dealt card finishes. */
    method MoveCompleteCard(c: Card)
      requires Valid() && c in cards
      modifies c, this`states
      ensures Valid()
      ensures states == old(states)[c := MoveCompleted(old(states)[c])]
    {
      CardValid(c);
      c.FinishMove();
      Record(c);
    }
  }
}
