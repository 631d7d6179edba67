# Card board: a verified model

This project models the board logic of a small Unity card game: the `Game` component, the
per-card state machine in `Card`, and the `Counter` stat holder.

`Game` deals cards into a hand and keeps every card in one of three zones:

- the ordered hand list `_cardsInHand`;
- the ordered table list `_cardsOnTable`;
- the single `_draggedCard` slot.

It moves cards between the zones when they are dragged, dropped or killed. A red button changes one
stat of the cards in round-robin order. After every change, two coroutines lay out the hand as a fan
and the table as a row, one card at a time.

Each `Card` reacts to mouse hover, press, release and drag, and keeps a home pose. It locks itself
against input until its settle move completes. It dies when its hp drops to zero or below.

Files:

- `geometry.dfy` (module Geometry): plane vectors and the absolute value.
- `layout.dfy` (module Layout): the pose formulas of the two layout coroutines, as pure functions on
  exact reals, and lemmas about their symmetry and bounds.
- `zones.dfy` (module Zones):
  - `List.Remove` on sequences;
  - the board value `Board(hand, table, dragged)`;
  - what OnCardDrag, OnCardDrop and OnCardRemove do to the zones;
  - the partition invariant.
- `counter.dfy` (module Counters): class `Counter`, and C#'s wrapping 32-bit int addition
  (`Wrap32`) that its ModifyValue uses.
- `card.dfy` (module Cards):
  - `CardState`, the card's fields as a value;
  - one pure function per handler and setter, with lemmas;
  - class `Card`, whose methods are proved to change its fields exactly as those functions say.
- `invariant.dfy` (module BoardInvariant):
  - the board invariant on values, which covers the zones, the dealt cards and a snapshot of the
    card states;
  - the coroutine cursor;
  - one lemma per kind of step, showing that the step keeps the invariant.
- `game.dfy` (module Games): class `Game`.
  - Besides the source's fields it has a ghost snapshot `states` of every dealt card's state.
  - Every public handler keeps `states` equal to the cards' fields and the board invariant
    `Valid()`. The helpers `CreateCards`, `DealOne`, `Bury` and `PutDown` run before a regroup and
    keep only `Coupled()` (the snapshot is the fields) and `Sane()` (the zones and the dealt cards
    agree); the layout part of `Valid()` is restored by the `RegroupCards` that follows them.
  - Every method states the new zones and the new snapshot in terms of the old ones.
  - The mouse handlers and the `Game` handlers are linked through `Mouse*Card` methods. Each one
    calls the card's handler and passes the signal it returns to the handler subscribed to that
    delegate.

The regroup coroutines are modelled as cursors: `None` means the coroutine is not running, and
`Some(n)` means it is suspended after laying out index `n - 1`.

- `RegroupCards` restarts both coroutines. Each runs its body for index 0 at once, as
  `StartCoroutine` does.
- `TickHand` and `TickTable` are the later resumptions after `WaitForSeconds`.
- Each resumption re-reads the live list, so a card removed mid-cascade shifts the later indices.

## Model

| member | source | states |
|---|---|---|
| Counters.Counter.constructor | Assets/Scripts/Counter.cs:9 | A new counter holds C#'s default value 0. |
| Counters.Counter.SetValue | Assets/Scripts/Counter.cs:14-18 | The stored value becomes the argument. |
| Counters.Wrap32 | Assets/Scripts/Counter.cs:22 | C#'s unchecked int addition: the result is in the int range, differs from the exact sum by a multiple of 2^32, and equals it when the sum fits. |
| Counters.WrapShift | Assets/Scripts/Counter.cs:22 | Adding a multiple of 2^32 does not change the wrapped value. |
| Counters.WrapAdd | Assets/Scripts/Counter.cs:22 | Wrapping an intermediate sum does not change the wrapped total. |
| Counters.Counter.ModifyValue | Assets/Scripts/Counter.cs:20-25 | Returns the old value plus d with 32-bit wrap-around (the exact sum when it fits), and stores that same value. |
| Counters.ModifyTwice | Assets/Scripts/Counter.cs:20-25 | ModifyValue(a) then ModifyValue(b) leaves the value a single wrapping ModifyValue(a + b) would. |
| Geometry.Abs | Assets/Scripts/Game.cs:202 | Mathf.Abs is non-negative and equals the argument or its negation. |
| Layout.Mid | Assets/Scripts/Game.cs:199-202 | `(Count - 1) / 2`: twice it is k - 1, and for a non-empty zone it lies between 0 and the last index. |
| Layout.HandRotation | Assets/Scripts/Game.cs:199 | The middle card is upright; with a positive angle step a card left of the middle is turned positive and one right of it negative. |
| Layout.HandX | Assets/Scripts/Game.cs:201 | The middle card is at x offset 0; with a positive step the cards left of the middle are at negative offsets and only they. |
| Layout.HandY | Assets/Scripts/Game.cs:202 | With a non-negative y step no hand card is above the anchor, and the middle card is at its height. |
| Layout.TableX | Assets/Scripts/Game.cs:181 | With a positive step, table card i is right of the anchor exactly when 2i + 2 > k. |
| Layout.HandSlot | Assets/Scripts/Game.cs:199-209 | Hand slot i has sorting order i and, with a non-negative y step, is not above the anchor. |
| Layout.TableSlot | Assets/Scripts/Game.cs:181-189 | Table slot i has sorting order i, rotation 0 and the anchor's height. |
| Layout.HandMirror | Assets/Scripts/Game.cs:199-202 | Hand cards i and k-1-i have opposite rotations and x offsets and the same y offset. |
| Layout.HandYBounds | Assets/Scripts/Game.cs:202 | With a non-negative y step, no hand card is above the anchor and none is below the outermost cards. |
| Layout.HandRotationBounds | Assets/Scripts/Game.cs:199 | No hand card is rotated more than mid times the angle step. |
| Layout.HandCentre | Assets/Scripts/Game.cs:199-202 | In an odd-sized hand the middle card is upright, centred and at the anchor's height. |
| Layout.RowSpacing | Assets/Scripts/Game.cs:181-201 | Neighbouring cards in either zone are exactly one x step apart. |
| Layout.TableOffCentre | Assets/Scripts/Game.cs:181-201 | The table row is the centred hand row shifted right by half an x step. |
| Layout.SingleTableCard | Assets/Scripts/Game.cs:181 | A single table card sits half a step right of the anchor, not on it. |
| Layout.TableXInjective | Assets/Scripts/Game.cs:181 | With a non-zero step, distinct table indices get distinct x positions. |
| Layout.FiveCardFan | Assets/Scripts/Game.cs:199 | In a five-card hand the rotations run from +2 steps to -2 steps, and the middle card is upright. |
| Zones.IndexOf | Assets/Scripts/Game.cs:126-130 | The first index of x: nothing before it is x, and it is in range iff x is in the list. |
| Zones.RemoveFirst | Assets/Scripts/Game.cs:113-117 | List.Remove: a no-op when x is absent, otherwise the list is one shorter; every other element stays. |
| Zones.RemoveFirstSplices | Assets/Scripts/Game.cs:126-130 | Removal cuts x out at its first index; every other card keeps its relative order. |
| Zones.RemoveFirstNoDup | Assets/Scripts/Game.cs:113-117 | On a duplicate-free list, removal leaves a duplicate-free list without x. |
| Zones.AppendNoDup | Assets/Scripts/Game.cs:148-154 | Appending an absent card keeps a list duplicate-free. |
| Zones.AfterDrag | Assets/Scripts/Game.cs:122-136 | With the slot taken nothing changes; with it empty the card fills it. Each list keeps exactly its elements other than the card. |
| Zones.AfterDrop | Assets/Scripts/Game.cs:141-161 | Only the dragged card is dropped: the slot empties and the card joins the table exactly when over it, otherwise the hand; no list loses a card and the total length grows by one. |
| Zones.AfterRemove | Assets/Scripts/Game.cs:113-117 | The slot is kept; each list keeps exactly its elements other than the card and does not grow. |
| Zones.DealtPartitioned | Assets/Scripts/Game.cs:90-106 | The dealt board, with every card in the hand in creation order, an empty table and an empty slot, is partitioned and places every card. |
| Zones.DragFromEmptySlot | Assets/Scripts/Game.cs:124-132 | With the slot empty, the card leaves both lists and fills the slot, each list keeps its other cards in order, and the partition holds. |
| Zones.DropDragged | Assets/Scripts/Game.cs:143-160 | Dropping the dragged card appends it to exactly one list, empties the slot, keeps the partition and keeps every placed card placed. |
| Zones.RemoveKeepsPartition | Assets/Scripts/Game.cs:108-120 | Removal keeps the partition, takes the card off both lists and leaves the dragged slot as it was. |
| Zones.RemoveTwice | Assets/Scripts/Game.cs:113-117 | Removing a card a second time leaves the zones unchanged. |
| Zones.ExactlyOneZone | Assets/Scripts/Game.cs:23-34 | A placed card is in exactly one of hand, table and dragged slot. |
| Zones.SingleDrag | Assets/Scripts/Game.cs:135-143 | While one card is dragged, drag and drop events of any other card change nothing. |
| Cards.Rotated | Assets/Scripts/Card.cs:146-152 | Rotate: the rotation target becomes the value; home, position and the settle wiring are kept. |
| Cards.MovedTo | Assets/Scripts/Card.cs:167-183 | MoveTo: the position target becomes the value; the settle is wired exactly for a locking move of a live card; home and rotation are kept; consistency is preserved. |
| Cards.WithRotation | Assets/Scripts/Card.cs:138-144 | SetRotation: the rotation becomes the value and the home rotation does too exactly with setAsHome; home position, position and settle wiring are kept. |
| Cards.WithPosition | Assets/Scripts/Card.cs:154-160 | SetPosition: the position becomes the value and the home position does too exactly with setAsHome; rotations are kept; consistency is preserved. |
| Cards.WithSortingOrder | Assets/Scripts/Card.cs:228-238 | SetSortingOrder: the order becomes the value and the depth its negation; the home order follows exactly with setAsHome; the pose and settle wiring are kept. |
| Cards.TweensKilled | Assets/Scripts/Card.cs:258-268 | KillAllTweens: no settle stays wired; the lock, life and home are kept. |
| Cards.MoveCompleted | Assets/Scripts/Card.cs:181-188 | A finished x tween: the settle is no longer pending and the lock is cleared exactly when it was wired; life and home are kept. |
| Cards.MouseEnter | Assets/Scripts/Card.cs:63-81 | The card is raised exactly when it was raised already or is unlocked and not dragged; drag, lock, life and zone flags are kept, and no settle gets wired. |
| Cards.MouseExit | Assets/Scripts/Card.cs:83-96 | The card stays raised exactly when it was raised and locked or dragged; the same flags are kept, and no settle gets wired. |
| Cards.MouseDown | Assets/Scripts/Card.cs:98-106 | onCardDrag fires exactly for an unlocked subscribed card, and no other signal; isDragged is set unless locked; the lock and home are kept. |
| Cards.MouseUp | Assets/Scripts/Card.cs:108-120 | onCardDrop fires exactly for an unlocked subscribed card, and no other signal; the card ends locked, and isDragged survives only on a locked card. |
| Cards.MouseDrag | Assets/Scripts/Card.cs:122-128 | The signal is onCardDrag or nothing, and nothing without a subscriber. |
| Cards.HpSet | Assets/Scripts/Card.cs:190-201 | onCardRemove fires exactly for v <= 0, which kills and locks the card and unwires the settle; v > 0 changes no flag and fires nothing. |
| Cards.Apply | Assets/Scripts/Card.cs:63-201 | Over every event: the card is dead afterwards exactly when it was or the event is SetHP(v <= 0), and onCardRemove fires exactly for that event. |
| Cards.HoverKeepsHome | Assets/Scripts/Card.cs:63-96 | Hover enter and exit never change the home pose. |
| Cards.EnterEffect | Assets/Scripts/Card.cs:63-81 | Enter is a no-op when locked, raised or dragged. Otherwise the card is raised and drawn at order 30 with depth -30; a hand card is turned to 0 and lifted one unit above home, and a table card keeps its pose. |
| Cards.HoverRoundTrip | Assets/Scripts/Card.cs:63-96 | Exit after a granted enter lands exactly on the home pose and home order, with every flag as before. |
| Cards.ExitGuard | Assets/Scripts/Card.cs:83-86 | Exit is a no-op unless the card is raised, unlocked and not dragged. |
| Cards.PressRelease | Assets/Scripts/Card.cs:98-120 | Press and release are no-ops while locked. Otherwise press sets isDragged and fires onCardDrag; release clears isDragged, locks the card and fires onCardDrop. |
| Cards.DragWhileLocked | Assets/Scripts/Card.cs:122-128 | A drag event fires iff the card is unlocked or still dragged. |
| Cards.SettersIdempotent | Assets/Scripts/Card.cs:138-238 | SetRotation, SetPosition and SetSortingOrder change their home field only with setAsHome. SetSortingOrder sets depth to -value. Repeating any call changes nothing. |
| Cards.SettleWiring | Assets/Scripts/Card.cs:167-183 | OnMoveComplete is wired only by a locking move of a live card; the next move or KillAllTweens unhooks it. |
| Cards.DeathNotIdempotent | Assets/Scripts/Card.cs:190-201 | Every SetHP(v <= 0) kills and locks the card and fires onCardRemove, including on a card that is already dead. |
| Cards.OnlySettleUnlocks | Assets/Scripts/Card.cs:185-188 | The lockout is cleared only by the completion of a pending settle move. |
| Cards.ApplyConsistent | Assets/Scripts/Card.cs:178-198 | Every event keeps a dead card dead, locked and without a pending settle. |
| Cards.ApplyDead | Assets/Scripts/Card.cs:98-128 | On a dead card, every event keeps it dead and locked, freezes isDragged and isUp, never fires onCardDrop, and fires onCardDrag only if the card was dragged. |
| Cards.DeathIsFinal | Assets/Scripts/Card.cs:190-201 | Along any event sequence a dead card stays dead and locked, its drag flags are frozen, and onCardDrop never fires. So a card that dies while dragged is never dropped. |
| Cards.RunConsistent | Assets/Scripts/Card.cs:178-198 | Any event sequence keeps a card consistent and fires one signal slot per event. |
| Cards.Card.constructor | Assets/Scripts/Card.cs:51-61 | Instantiate plus Init(data): the counters show the data's cost, attack and hp, and every flag is clear (hp must be positive: see Left out). |
| Cards.Card.Subscribe | Assets/Scripts/Game.cs:102-104 | The three delegates get their subscriber; nothing else changes. |
| Cards.Card.OnMouseEnter | Assets/Scripts/Card.cs:63-81 | The fields move exactly as MouseEnter says, and the card stays consistent. |
| Cards.Card.OnMouseExit | Assets/Scripts/Card.cs:83-96 | The fields move exactly as MouseExit says. |
| Cards.Card.OnMouseDown | Assets/Scripts/Card.cs:98-106 | New state and fired signal are MouseDown of the old state. |
| Cards.Card.OnMouseUp | Assets/Scripts/Card.cs:108-120 | New state and fired signal are MouseUp of the old state. |
| Cards.Card.OnMouseDrag | Assets/Scripts/Card.cs:122-128 | Changes nothing and returns MouseDrag of the state. |
| Cards.Card.SetRotation | Assets/Scripts/Card.cs:138-144 | The fields become WithRotation of the old state. |
| Cards.Card.Rotate | Assets/Scripts/Card.cs:146-152 | Only the rotation target changes. |
| Cards.Card.SetPosition | Assets/Scripts/Card.cs:154-160 | The fields become WithPosition of the old state. |
| Cards.Card.DragTo | Assets/Scripts/Card.cs:162-165 | A move without the settle lock. |
| Cards.Card.MoveTo | Assets/Scripts/Card.cs:167-183 | The target changes; a pending settle is cancelled and re-wired only for a locking move of a live card. |
| Cards.Card.FinishMove | Assets/Scripts/Card.cs:181 | The x tween completing runs OnMoveComplete exactly when it was wired. |
| Cards.Card.OnMoveComplete | Assets/Scripts/Card.cs:185-188 | Clears the lockout and nothing else. |
| Cards.Card.SetHP | Assets/Scripts/Card.cs:190-201 | The hp counter takes the value and the other counters keep theirs; the flags and signal are HpSet of the old state. |
| Cards.Card.SetCost | Assets/Scripts/Card.cs:203-206 | The cost counter takes the value; the others keep theirs. |
| Cards.Card.SetAttack | Assets/Scripts/Card.cs:208-211 | The attack counter takes the value; the others keep theirs. |
| Cards.Card.SetInHand | Assets/Scripts/Game.cs:100 | The owner's write of isInHand changes that field alone. |
| Cards.Card.PlaceAt | Assets/Scripts/Game.cs:99 | The Vector2 write of transform.position sets the position and resets z to 0. |
| Cards.Card.SetSortingOrder | Assets/Scripts/Card.cs:228-238 | The fields become WithSortingOrder of the old state: the order, depth -value and, with setAsHome, the home order. |
| Cards.Card.KillAllTweens | Assets/Scripts/Card.cs:258-268 | Cancels the pending settle and nothing else. |
| BoardInvariant.Advance | Assets/Scripts/Game.cs:179-212 | One resumption: a stopped cursor stays stopped; a running one moves to the next index, never past k, and never lays out fewer cards. |
| BoardInvariant.Started | Assets/Scripts/Game.cs:169-174 | StartCoroutine runs the first step at once: exactly the first card (if any) is laid out and the cursor is at most k. |
| BoardInvariant.StepZone | Assets/Scripts/Game.cs:177-213 | A layout step records a state for exactly the cards already recorded, and changes nothing once the cursor is stopped or past the end. |
| BoardInvariant.Assigned | Assets/Scripts/Game.cs:186-189 | The slot becomes home and target; life, zone flag and lock are kept, and the settle is wired exactly on a live card. |
| BoardInvariant.CascadeRunsToEnd | Assets/Scripts/Game.cs:195-213 | A cascade suspended at n on k cards reaches index k after k - n resumptions and stops on the next one. |
| BoardInvariant.AssignedHome | Assets/Scripts/Game.cs:206-209 | A layout step makes the slot both the card's home and its target, wires the settle exactly on a live card, and changes no flag. |
| BoardInvariant.StepKeepsLife | Assets/Scripts/Game.cs:206-209 | A layout step preserves every card's life, lock and zone flag. |
| BoardInvariant.SoundMeansPartition | Assets/Scripts/Game.cs:23-34 | Under the invariant a live dealt card is in exactly one zone and a dead one in neither list. |
| BoardInvariant.StepLaidOut | Assets/Scripts/Game.cs:195-213 | A coroutine step extends the laid-out prefix of its zone by one index. |
| BoardInvariant.StepKeepsOther | Assets/Scripts/Game.cs:177-213 | A step of one zone leaves the other zone laid out. |
| BoardInvariant.StepSound | Assets/Scripts/Game.cs:177-213 | A coroutine step keeps the board invariant. |
| BoardInvariant.DragSound | Assets/Scripts/Game.cs:124-134 | Taking a card up with the slot empty keeps the board invariant. |
| BoardInvariant.DropSound | Assets/Scripts/Game.cs:143-160 | Dropping the live dragged card, with its isInHand set, keeps the board invariant. |
| BoardInvariant.KillSound | Assets/Scripts/Card.cs:194-199 | A dealt card dying breaks the invariant only for that card, which may still be listed. |
| BoardInvariant.RemoveSound | Assets/Scripts/Game.cs:108-120 | OnCardRemove of the dead card restores the full invariant. |
| BoardInvariant.DealSound | Assets/Scripts/Game.cs:94-104 | Dealing one new subscribed in-hand card into the hand keeps the invariant. |
| BoardInvariant.TickStep | Assets/Scripts/Game.cs:177-213 | One coroutine step keeps the invariant, lays its zone out one index further and keeps the other zone laid out. |
| BoardInvariant.TouchSound | Assets/Scripts/Card.cs:63-128 | A card changed by its own handler, keeping its zone flag, its life and its home (or dragged), keeps the invariant and the layout. |
| Games.Successor | Assets/Scripts/Game.cs:85-87 | The next index stays in [0, n). |
| Games.SuccessorMod | Assets/Scripts/Game.cs:85-87 | `_currentCard++` with the wrap to 0 is (i + 1) mod n. |
| Games.Pressed | Assets/Scripts/Game.cs:72-88 | After any number of presses the index is in range. |
| Games.PressedCycles | Assets/Scripts/Game.cs:72-88 | k presses from i land on (i + k) mod n, so the button visits the cards round-robin. |
| Games.DealtStates | Assets/Scripts/Game.cs:90-106 | After dealing, every dealt card is recorded in the dealt state (at the deck, in hand, subscribed) and every other card is left alone. |
| Games.Buried | Assets/Scripts/Game.cs:110-111 | The grave becomes home and target, rotation 0 becomes home and target, no settle is wired, and every flag (life, zone, lock, drag, raised), the sorting order and the depth are kept. |
| Games.KilledStaysDead | Assets/Scripts/Game.cs:108-120 | A card the red button kills stays recorded dead and locked through OnCardRemove's regroup, wherever it was, including a dragged card. |
| Games.Game.constructor | Assets/Scripts/Game.cs:23-34 | Empty lists, empty slot, index 0, no coroutine running; the invariant holds. |
| Games.Game.StartGame | Assets/Scripts/Game.cs:48-55 | Deals 4 to 6 fresh cards, each showing its data's stats, appended to `_cards` and to the hand; table and slot are untouched; both coroutines restart from index 0; the new snapshot is given. |
| Games.Game.RestartGame | Assets/Scripts/Game.cs:57-70 | Forgets every card and deals anew: fresh cards showing their data. The zones become the new cards in the hand, an empty table and the old dragged slot; both coroutines restart from index 0. |
| Games.Game.CreateCards | Assets/Scripts/Game.cs:90-106 | The given number of fresh cards are appended to both lists in creation order. Each shows its data's stats and is recorded in the dealt state. |
| Games.Game.DealOne | Assets/Scripts/Game.cs:94-104 | One fresh card showing its data is appended to `_cards` and the hand, and recorded in the dealt state. |
| Games.Game.NewCard | Assets/Scripts/Game.cs:94-104 | Instantiate, Init, the deck position, isInHand and the three subscriptions give exactly the dealt state. |
| Games.Game.OnRedButtonClick | Assets/Scripts/Game.cs:72-88 | ok iff `_currentCard` is in range, and then the index steps round-robin, the chosen stat of that card takes the value and the other two keep theirs. hp <= 0 removes the card from the zones (the slot is kept), buries it in the snapshot and restarts both coroutines. Any other click leaves the zones, the snapshot and the cursors alone; an out-of-range click changes nothing. |
| Games.Game.Click | Assets/Scripts/Game.cs:75-87 | The in-range click: the chosen stat takes the value and the others keep theirs, the zones, snapshot and cursors change as for ApplyStat, and the index takes the round-robin step. |
| Games.Game.ApplyStat | Assets/Scripts/Game.cs:78-83 | The named stat takes the value and the others keep theirs. Only hp <= 0 changes the zones (by removal), the snapshot (the card buried, then regrouped) and the cursors (restarted). |
| Games.Game.NextCard | Assets/Scripts/Game.cs:85-87 | The index becomes its round-robin successor. |
| Games.Game.Wound | Assets/Scripts/Game.cs:82-83 | hp takes the value. At hp <= 0 the card is buried in the snapshot and removed from the zones, and both coroutines restart; otherwise the zones, snapshot and cursors are unchanged. |
| Games.Game.Die | Assets/Scripts/Card.cs:194-199 | The killed card reaches OnCardRemove: removed, buried, both coroutines restarted. |
| Games.Game.OnCardRemove | Assets/Scripts/Game.cs:108-120 | The card goes to the grave at rotation 0 and leaves both lists, the dragged slot is untouched, and both coroutines restart. |
| Games.Game.Bury | Assets/Scripts/Game.cs:110-117 | The grave pose plus removal from both lists; the invariant is restored. |
| Games.Game.ToGrave | Assets/Scripts/Game.cs:110-111 | The card's state becomes Buried of its old state. |
| Games.Game.OnCardDrag | Assets/Scripts/Game.cs:122-139 | With the slot empty, the card is taken up, the zones regroup and the card moves to the mouse. For the dragged card only the card moves. Any other card changes nothing. |
| Games.Game.TakeUp | Assets/Scripts/Game.cs:124-134 | The card leaves its list and fills the slot; both coroutines restart without it. |
| Games.Game.Follow | Assets/Scripts/Game.cs:138 | The dragged card alone moves to the mouse. |
| Games.Game.OnCardDrop | Assets/Scripts/Game.cs:141-162 | Only the dragged card is dropped: appended to the table (isInHand false) or the hand (isInHand true), the slot emptied, both coroutines restarted; otherwise nothing. |
| Games.Game.PutDown | Assets/Scripts/Game.cs:143-160 | The zones become AfterDrop and only the card's isInHand changes. |
| Games.Game.Append | Assets/Scripts/Game.cs:148-154 | The card is appended to exactly the table list when over the table, otherwise to the hand list. |
| Games.Game.RegroupCards | Assets/Scripts/Game.cs:164-175 | Both cascades restart from index 0 and lay out index 0 at once; the invariant and the layout hold; every card's stats are unchanged. |
| Games.Game.TickHand | Assets/Scripts/Game.cs:195-213 | One resumption: the cursor advances over the live hand, and the snapshot takes one step. |
| Games.Game.LayOutHand | Assets/Scripts/Game.cs:199-209 | Hand card n gets its fan slot as home and the cursor moves to n + 1. |
| Games.Game.TickTable | Assets/Scripts/Game.cs:177-193 | One resumption of the table cascade over the live table list. |
| Games.Game.LayOutTable | Assets/Scripts/Game.cs:181-189 | Table card n gets its row slot as home and the cursor moves to n + 1. |
| Games.Game.LayOut | Assets/Scripts/Game.cs:186-189 | SetRotation, SetPosition with the lock, then SetSortingOrder, all as home. |
| Games.Game.MouseEnterCard | Assets/Scripts/Card.cs:63-81 | Hover enter changes only that card's recorded state, by MouseEnter. |
| Games.Game.MouseExitCard | Assets/Scripts/Card.cs:83-96 | Hover exit changes only that card's recorded state, by MouseExit. |
| Games.Game.MouseDownCard | Assets/Scripts/Card.cs:98-106 | The zones change by AfterDrag exactly when the press fires onCardDrag. The snapshot records MouseDown's state; with the slot empty the zones regroup (cursors restarted) and the card moves to the mouse; for the dragged card only the move; otherwise the cursors are kept. |
| Games.Game.MouseUpCard | Assets/Scripts/Card.cs:108-120 | The zones change by AfterDrop exactly when the release fires onCardDrop for the dragged card; then the snapshot is regrouped with its zone flag set and the cursors restart, otherwise the snapshot records MouseUp's state and the cursors are kept. A dead dragged card keeps the slot. |
| Games.Game.MouseDragCard | Assets/Scripts/Card.cs:122-128 | The zones change by AfterDrag exactly when the drag event fires; the snapshot and cursors change as OnCardDrag's three cases say, and not at all without a signal. |
| Games.Game.MoveCompleteCard | Assets/Scripts/Card.cs:181-188 | A finished settle move changes only that card's state, by MoveCompleted. |

## Behaviour of the code as written

The model keeps these behaviours of the source and proves them:

- A single table card is not centred: `TableX(0, 1, step) == step / 2` (Layout.SingleTableCard).
- Death is not idempotent: every `SetHP(v <= 0)` fires onCardRemove again
  (Cards.DeathNotIdempotent).
- OnCardRemove does not clear `_draggedCard` (Zones.RemoveKeepsPartition,
  Games.Game.OnCardRemove).
- A card killed by the red button while dragged stays in the slot. It can never fire onCardDrop,
  so the slot is never freed (Cards.DeathIsFinal, Games.Game.Wound, Games.KilledStaysDead,
  Games.Game.MouseUpCard, `Games.Game.DragStuck`).
- The regroup coroutines read the live lists at each resumption; they do not work on a snapshot.
- A hovered hand card is turned to rotation 0, not kept at its home rotation (Cards.EnterEffect).
- A card that is locked but still dragged keeps firing onCardDrag (Cards.DragWhileLocked).
- RestartGame resets neither `_currentCard` nor `_draggedCard`. After a restart with fewer cards,
  the next click's `_cards[_currentCard]` is out of range, which the model reports as `ok == false`.

## Left out

- DOTween tweens, glow fades, TextMeshPro text, sprites and the SortingGroup component are
  presentation. A card keeps only:
  - its last requested position and rotation targets;
  - its sorting order and depth;
  - whether OnMoveComplete is wired to the live x tween.
- A tween completing is the explicit method `FinishMove` (`MoveCompleteCard` at board level), not
  elapsed time. `WaitForSeconds(0.2f)` between layout steps becomes the explicit resumptions
  `TickHand`/`TickTable`.
- SetIllustration and LoadIllustrationCoroutine are network I/O (WWW). SetName and SetDescription
  only write text. `Init()` only fetches components.
- Randomness is a parameter of the model: the number of cards (`Random.Range(4, 7)`), the button's
  stat and value, and `CardsDataSO.GetRandomCard`. The mouse position and
  `_tableCollider.IsTouching` are parameters too.
- The Unity lifecycle is left out: `Start`, the button listeners, `Instantiate`/`Destroy` and `print`.
  Destroyed cards are simply forgotten by RestartGame. Unity's overloaded `==` reports a destroyed
  object as null; the model does not, so a dragged card keeps the slot across a restart.
- Floats are exact reals.
- Delegates are one `subscribed` flag per card. Only the `Game` handlers ever subscribe, and they
  always subscribe all three together.
- Events are delivered one at a time, on a single thread.
- Cards.Card.constructor: requires `hp > 0`. Init calls SetHP before `Game` subscribes, so a card
  dealt with hp <= 0 would call a null onCardRemove and throw.
- Games.Game.OnCardDrop: requires the card to be alive. OnCardDrop is reached only from onCardDrop,
  and onCardDrop is fired only by an unlocked, hence live, card (Games.Game.MouseUpCard).
- Games.Game.OnCardDrop: the source empties the slot after RegroupCards and the model empties it
  before. RegroupCards never reads the slot.
- Cards.Card.SetInHand and Cards.Card.PlaceAt stand for `Game`'s direct writes to the card's public
  `isInHand` field and to `transform.position`.
- Counters.Counter.SetValue: values are unbounded integers; C#'s `int` parameter type, which
  keeps them in the 32-bit range, is not modelled. ModifyValue's addition wraps as C#'s does. The
  game itself never calls ModifyValue, and the red button only writes values in [-2, 8].
- Games.Game.StartGame: the cards are dealt from a data sequence of 4 to 6 entries that the caller supplies; the random draw of the count and of each card's data is not modelled.
