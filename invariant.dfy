/**
 * The board invariant of Game, stated on values: the zones (a Zones.Board), the list of dealt cards
 * (`_cards`) and a snapshot of every dealt card's state.  Each lemma says that one kind of step
 * of Game keeps it: the zone changes of the three card handlers, a coroutine step, a card changing
 * under the board (hover, drag move, tween completion, death) and dealing a new card.
 */
module BoardInvariant {
  import opened Geometry
  import opened Layout
  import opened Zones
  import opened Cards

  /** How many indices a regroup coroutine has laid out: a suspended one (Some(n)) has done
      0 .. n-1, one that has finished (None) has done the whole list. */
  function Done(cursor: Option<nat>, k: nat): nat
  {
    match cursor
    case None => k
    case Some(n) => n
  }

  /** One resumption of a regroup coroutine on a list of length k: `i++`, then either the body runs
      for the new index or the loop ends. */
  function Advance(cursor: Option<nat>, k: nat): (r: Option<nat>)
    ensures cursor.None? ==> r.None?
    ensures r.Some? ==> cursor.Some? && r.value == cursor.value + 1 && r.value <= k
    ensures cursor.Some? && cursor.value <= k ==> Done(cursor, k) <= Done(r, k)
  {
    match cursor
    case None => None
    case Some(n) => if n < k then Some(n + 1) else None
  }

  /** The cursor just after StartCoroutine: the body has already run for index 0, if there is one. */
  function Started(k: nat): (r: Option<nat>)
    ensures Done(r, k) == if k == 0 then 0 else 1
    ensures r.Some? ==> r.value <= k
  {
    Advance(Some(0), k)
  }

  /** `t` resumptions in a row. */
  function AdvanceTimes(cursor: Option<nat>, k: nat, t: nat): Option<nat>
    decreases t
  {
    if t == 0 then cursor else AdvanceTimes(Advance(cursor, k), k, t - 1)
  }

  /** A cascade suspended at n on a list of length k reaches the end after k - n more resumptions
      and stops on the one after. */
  lemma {:induction false} CascadeRunsToEnd(n: nat, k: nat)
    requires n <= k
    ensures AdvanceTimes(Some(n), k, k - n) == Some(k)
    ensures Advance(AdvanceTimes(Some(n), k, k - n), k) == None
    decreases k - n
  {
    if n < k {
      CascadeRunsToEnd(n + 1, k);
    }
  }

  /** The pose coroutine step j of a zone of k cards assigns. */
  function Slot(inHand: bool, anchor: Vec2, j: nat, k: nat, steps: Steps): Pose
  {
    if inHand then HandSlot(anchor, j, k, steps) else TableSlot(anchor, j, k, steps)
  }

  /** The three calls a regroup step makes on one card: SetRotation, SetPosition with the settle
      lock, SetSortingOrder, all as home. */
  function Assigned(s: CardState, pose: Pose): (r: CardState)
    ensures HomeOf(r) == pose
    ensures r.position == pose.position && r.rotation == pose.rotation
    ensures r.isDead == s.isDead && r.isInHand == s.isInHand && r.ignoreEvents == s.ignoreEvents
    ensures r.settlePending == !s.isDead
  {
    WithSortingOrder(WithPosition(WithRotation(s, pose.rotation, true), pose.position, true, true), pose.sortingOrder, true)
  }

  /** A regroup step makes the pose the card's home and its target, leaves every flag alone, and
      wires the settle callback exactly when the card is alive. */
  lemma AssignedHome(s: CardState, pose: Pose)
    ensures HomeOf(Assigned(s, pose)) == pose
    ensures Assigned(s, pose).position == pose.position && Assigned(s, pose).rotation == pose.rotation
    ensures Assigned(s, pose).sortingOrder == pose.sortingOrder && Assigned(s, pose).depth == -pose.sortingOrder
    ensures Assigned(s, pose).settlePending == !s.isDead
    ensures Assigned(s, pose).(homePosition := s.homePosition, homeRotation := s.homeRotation, homeSortingOrder := s.homeSortingOrder,
                               position := s.position, rotation := s.rotation, sortingOrder := s.sortingOrder,
                               depth := s.depth, settlePending := s.settlePending) == s
  {
  }

  /** The card states after one resumption of a zone's coroutine at cursor `cur`. */
  function StepZone<T(==)>(st: map<T, CardState>, zone: seq<T>, cur: Option<nat>, inHand: bool, anchor: Vec2, steps: Steps): (r: map<T, CardState>)
    ensures r.Keys == st.Keys
    ensures cur.None? || cur.value >= |zone| ==> r == st
  {
    if cur.Some? && cur.value < |zone| && zone[cur.value] in st then
      st[zone[cur.value] := Assigned(st[zone[cur.value]], Slot(inHand, anchor, cur.value, |zone|, steps))]
    else st
  }

  /** A coroutine step changes only poses: every card keeps its life, its lock and its zone flag. */
  lemma StepKeepsLife<T>(st: map<T, CardState>, zone: seq<T>, cur: Option<nat>, inHand: bool, anchor: Vec2, steps: Steps, c: T)
    requires c in st
    ensures c in StepZone(st, zone, cur, inHand, anchor, steps)
    ensures StepZone(st, zone, cur, inHand, anchor, steps)[c].isDead == st[c].isDead
    ensures StepZone(st, zone, cur, inHand, anchor, steps)[c].isInHand == st[c].isInHand
    ensures StepZone(st, zone, cur, inHand, anchor, steps)[c].ignoreEvents == st[c].ignoreEvents
  {
  }

  /** Every index the zone's coroutine has reached holds the slot the coroutine gave it. */
  predicate LaidOut<T(==)>(zone: seq<T>, cur: Option<nat>, st: map<T, CardState>, inHand: bool, anchor: Vec2, steps: Steps)
  {
    && (cur.Some? ==> cur.value <= |zone|)
    && forall j :: 0 <= j < Done(cur, |zone|) ==> zone[j] in st && HomeOf(st[zone[j]]) == Slot(inHand, anchor, j, |zone|, steps)
  }

  /** The board invariant with one card `x` allowed to be dead while still listed (between SetHP
      killing it and OnCardRemove taking it off): the zones are partitioned; every dealt card has
      a consistent, subscribed state; the hand holds only in-hand cards and the table only table
      cards, all dealt and alive; and every live dealt card is in some zone. */
  predicate SoundExcept<T(==)>(b: Board<T>, all: seq<T>, st: map<T, CardState>, x: Option<T>)
  {
    && Partitioned(b)
    && (forall c :: c in all ==> c in st && Consistent(st[c]) && st[c].subscribed)
    && (forall c :: c in b.hand ==> c in all && c in st && st[c].isInHand && (x == Some(c) || !st[c].isDead))
    && (forall c :: c in b.table ==> c in all && c in st && !st[c].isInHand && (x == Some(c) || !st[c].isDead))
    && (forall c :: c in all && c in st && !st[c].isDead ==> Placed(b, c))
  }

  predicate Sound<T(==)>(b: Board<T>, all: seq<T>, st: map<T, CardState>)
  {
    SoundExcept(b, all, st, None)
  }

  /** Under the invariant every live dealt card is in exactly one zone and no dead card is listed. */
  lemma SoundMeansPartition<T>(b: Board<T>, all: seq<T>, st: map<T, CardState>, c: T)
    requires Sound(b, all, st) && c in all
    ensures c in st
    ensures !st[c].isDead ==> Placed(b, c) && !(c in b.hand && c in b.table)
    ensures !st[c].isDead && b.dragged == Some(c) ==> c !in b.hand && c !in b.table
    ensures st[c].isDead ==> c !in b.hand && c !in b.table
  {
  }

  /** A card may change under the board, keeping the invariant, as long as it stays consistent and
      subscribed and keeps its zone flag and its life. */
  lemma UpdateSound<T>(b: Board<T>, all: seq<T>, st: map<T, CardState>, c: T, s: CardState)
    requires Sound(b, all, st) && c in all
    requires Consistent(s) && s.subscribed
    requires s.isInHand == st[c].isInHand && s.isDead == st[c].isDead
    ensures Sound(b, all, st[c := s])
  {
  }

  /** A change to a card keeps a zone laid out if the card is outside the zone or keeps its home pose. */
  lemma UpdateLaidOut<T>(zone: seq<T>, cur: Option<nat>, st: map<T, CardState>, inHand: bool, anchor: Vec2, steps: Steps, c: T, s: CardState)
    requires LaidOut(zone, cur, st, inHand, anchor, steps)
    requires c in st
    requires c !in zone || HomeOf(s) == HomeOf(st[c])
    ensures LaidOut(zone, cur, st[c := s], inHand, anchor, steps)
  {
    forall j | 0 <= j < Done(cur, |zone|)
      ensures zone[j] in st[c := s] && HomeOf(st[c := s][zone[j]]) == Slot(inHand, anchor, j, |zone|, steps)
    {
      if zone[j] == c {
        assert c in zone;
      }
    }
  }

  /** A coroutine step extends the laid-out prefix of its zone by one index. */
  lemma StepLaidOut<T>(zone: seq<T>, cur: Option<nat>, st: map<T, CardState>, inHand: bool, anchor: Vec2, steps: Steps)
    requires LaidOut(zone, cur, st, inHand, anchor, steps)
    requires NoDup(zone) && forall c :: c in zone ==> c in st
    ensures LaidOut(zone, Advance(cur, |zone|), StepZone(st, zone, cur, inHand, anchor, steps), inHand, anchor, steps)
  {
    if cur.Some? && cur.value < |zone| {
      var n := cur.value;
      assert zone[n] in zone;
      var st' := StepZone(st, zone, cur, inHand, anchor, steps);
      AssignedHome(st[zone[n]], Slot(inHand, anchor, n, |zone|, steps));
      forall j | 0 <= j < n + 1
        ensures zone[j] in st' && HomeOf(st'[zone[j]]) == Slot(inHand, anchor, j, |zone|, steps)
      {
        if j < n {
          assert zone[j] != zone[n];
        }
      }
    }
  }

  /** A coroutine step of one zone leaves a disjoint zone laid out as it was. */
  lemma StepKeepsOther<T>(zone: seq<T>, cur: Option<nat>, st: map<T, CardState>, inHand: bool, anchor: Vec2, steps: Steps,
                          other: seq<T>, ocur: Option<nat>, oInHand: bool, oAnchor: Vec2)
    requires LaidOut(other, ocur, st, oInHand, oAnchor, steps)
    requires forall c :: c in zone ==> c !in other
    ensures LaidOut(other, ocur, StepZone(st, zone, cur, inHand, anchor, steps), oInHand, oAnchor, steps)
  {
    if cur.Some? && cur.value < |zone| && zone[cur.value] in st {
      assert zone[cur.value] in zone;
      UpdateLaidOut(other, ocur, st, oInHand, oAnchor, steps, zone[cur.value],
                    Assigned(st[zone[cur.value]], Slot(inHand, anchor, cur.value, |zone|, steps)));
    }
  }

  /** A coroutine step keeps the invariant: it changes only poses. */
  lemma StepSound<T>(b: Board<T>, all: seq<T>, st: map<T, CardState>, zone: seq<T>, cur: Option<nat>, inHand: bool, anchor: Vec2, steps: Steps)
    requires Sound(b, all, st)
    requires forall c :: c in zone ==> c in all
    ensures Sound(b, all, StepZone(st, zone, cur, inHand, anchor, steps))
  {
    if cur.Some? && cur.value < |zone| && zone[cur.value] in st {
      var c := zone[cur.value];
      assert c in zone;
      var s := Assigned(st[c], Slot(inHand, anchor, cur.value, |zone|, steps));
      AssignedHome(st[c], Slot(inHand, anchor, cur.value, |zone|, steps));
      UpdateSound(b, all, st, c, s);
    }
  }

  /** OnCardDrag with the slot empty keeps the invariant. */
  lemma DragSound<T>(b: Board<T>, all: seq<T>, st: map<T, CardState>, c: T)
    requires Sound(b, all, st) && b.dragged.None?
    ensures Sound(AfterDrag(b, c), all, st)
  {
    DragFromEmptySlot(b, c);
  }

  /** OnCardDrop of the dragged, live card keeps the invariant once its zone flag is set. */
  lemma DropSound<T>(b: Board<T>, all: seq<T>, st: map<T, CardState>, c: T, overTable: bool)
    requires Sound(b, all, st) && b.dragged == Some(c) && c in all && !st[c].isDead
    ensures Sound(AfterDrop(b, c, overTable), all, st[c := st[c].(isInHand := !overTable)])
  {
    DropDragged(b, c, overTable);
    var st' := st[c := st[c].(isInHand := !overTable)];
    var b' := AfterDrop(b, c, overTable);
    forall x | x in all && x in st' && !st'[x].isDead ensures Placed(b', x) {
      assert Placed(b, x);
    }
  }

  /** SetHP killing a dealt card breaks the invariant only for that card, which may still be listed. */
  lemma KillSound<T>(b: Board<T>, all: seq<T>, st: map<T, CardState>, c: T, s: CardState)
    requires Sound(b, all, st) && c in all
    requires Consistent(s) && s.subscribed && s.isDead && s.isInHand == st[c].isInHand
    ensures SoundExcept(b, all, st[c := s], Some(c))
  {
  }

  /** OnCardRemove of the dead card restores the invariant; the card may be moved meanwhile. */
  lemma RemoveSound<T>(b: Board<T>, all: seq<T>, st: map<T, CardState>, c: T, s: CardState)
    requires SoundExcept(b, all, st, Some(c)) && c in all && st[c].isDead
    requires Consistent(s) && s.subscribed && s.isDead && s.isInHand == st[c].isInHand
    ensures Sound(AfterRemove(b, c), all, st[c := s])
  {
    RemoveKeepsPartition(b, c);
    var b' := AfterRemove(b, c);
    var st' := st[c := s];
    forall x | x in b'.hand ensures x in all && x in st' && st'[x].isInHand && !st'[x].isDead {
      assert x in b.hand && x != c;
    }
    forall x | x in b'.table ensures x in all && x in st' && !st'[x].isInHand && !st'[x].isDead {
      assert x in b.table && x != c;
    }
    forall x | x in all && x in st' && !st'[x].isDead ensures Placed(b', x) {
      assert x != c && Placed(b, x);
    }
  }

  /** CreateCards dealing one new card into the hand keeps the invariant. */
  lemma DealSound<T>(b: Board<T>, all: seq<T>, st: map<T, CardState>, c: T, s: CardState)
    requires Sound(b, all, st)
    requires c !in all && b.dragged != Some(c)
    requires Consistent(s) && s.subscribed && s.isInHand && !s.isDead
    ensures Sound(Board(b.hand + [c], b.table, b.dragged), all + [c], st[c := s])
  {
    assert c !in b.hand && c !in b.table;
    AppendNoDup(b.hand, c);
    var b' := Board(b.hand + [c], b.table, b.dragged);
    var st' := st[c := s];
    forall x | x in b'.hand ensures x in all + [c] && x in st' && st'[x].isInHand && !st'[x].isDead {
      if x != c { assert x in b.hand; }
    }
    forall x | x in all + [c] && x in st' && !st'[x].isDead ensures Placed(b', x) {
      if x != c { assert x in all && Placed(b, x); }
    }
  }

  /** One step of a zone's coroutine, with everything the board needs of it: the invariant holds
      after, the zone is laid out one index further, and the other zone stays laid out. */
  lemma TickStep<T>(b: Board<T>, all: seq<T>, st: map<T, CardState>, inHand: bool, anchor: Vec2, steps: Steps,
                    n: nat, ocur: Option<nat>, oAnchor: Vec2)
    requires Sound(b, all, st)
    requires LaidOut(if inHand then b.hand else b.table, Some(n), st, inHand, anchor, steps)
    requires n < |if inHand then b.hand else b.table|
    ensures var zone, other := if inHand then b.hand else b.table, if inHand then b.table else b.hand;
      var st' := StepZone(st, zone, Some(n), inHand, anchor, steps);
      && Sound(b, all, st')
      && LaidOut(zone, Some(n + 1), st', inHand, anchor, steps)
      && (LaidOut(other, ocur, st, !inHand, oAnchor, steps) ==> LaidOut(other, ocur, st', !inHand, oAnchor, steps))
  {
    var zone, other := if inHand then b.hand else b.table, if inHand then b.table else b.hand;
    StepLaidOut(zone, Some(n), st, inHand, anchor, steps);
    StepSound(b, all, st, zone, Some(n), inHand, anchor, steps);
    if LaidOut(other, ocur, st, !inHand, oAnchor, steps) {
      StepKeepsOther(zone, Some(n), st, inHand, anchor, steps, other, ocur, !inHand, oAnchor);
    }
  }

  /** A card outside the zone is left alone by the zone's step. */
  lemma StepLeavesOthers<T>(st: map<T, CardState>, zone: seq<T>, cur: Option<nat>, inHand: bool, anchor: Vec2, steps: Steps, c: T)
    requires c in st && c !in zone
    ensures c in StepZone(st, zone, cur, inHand, anchor, steps)
    ensures StepZone(st, zone, cur, inHand, anchor, steps)[c] == st[c]
  {
  }

  /** One card's state changes in place, keeping its zone flag, its life and its home (or it is in
      no zone): the invariant holds after and both zones stay laid out. */
  lemma TouchSound<T>(b: Board<T>, all: seq<T>, st: map<T, CardState>, c: T, s: CardState,
                      hcur: Option<nat>, hAnchor: Vec2, tcur: Option<nat>, tAnchor: Vec2, steps: Steps)
    requires Sound(b, all, st) && c in all
    requires LaidOut(b.hand, hcur, st, true, hAnchor, steps) && LaidOut(b.table, tcur, st, false, tAnchor, steps)
    requires Consistent(s) && s.subscribed
    requires c in st && s.isInHand == st[c].isInHand && s.isDead == st[c].isDead
    requires HomeOf(s) == HomeOf(st[c]) || b.dragged == Some(c)
    ensures Sound(b, all, st[c := s])
    ensures LaidOut(b.hand, hcur, st[c := s], true, hAnchor, steps)
    ensures LaidOut(b.table, tcur, st[c := s], false, tAnchor, steps)
  {
    SoundMeansPartition(b, all, st, c);
    UpdateSound(b, all, st, c, s);
    UpdateLaidOut(b.hand, hcur, st, true, hAnchor, steps, c, s);
    UpdateLaidOut(b.table, tcur, st, false, tAnchor, steps, c, s);
  }
}
