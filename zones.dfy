/**
 * Zone bookkeeping of Game, on values: the ordered lists `_cardsInHand` and `_cardsOnTable`,
 * the `_draggedCard` slot, and what OnCardDrag, OnCardDrop and OnCardRemove do to them.
 * Generic in the card identity T (the model instantiates it with Card references).
 */
module Zones {

  datatype Option<T> = None | Some(value: T)

  /** No element occurs twice. */
  predicate NoDup<T(==)>(s: seq<T>)
  {
    forall i, j :: 0 <= i < j < |s| ==> s[i] != s[j]
  }

  /** Index of the first occurrence of x in s, or |s| if there is none (List.IndexOf). */
  function IndexOf<T(==)>(s: seq<T>, x: T): (i: nat)
    ensures i <= |s|
    ensures x !in s[..i]
    ensures i < |s| <==> x in s
    ensures i < |s| ==> s[i] == x
  {
    if s == [] then 0
    else if s[0] == x then 0
    else
      assert s[1..][..IndexOf(s[1..], x)] == s[1..1 + IndexOf(s[1..], x)];
      assert s[..1 + IndexOf(s[1..], x)] == [s[0]] + s[1..1 + IndexOf(s[1..], x)];
      1 + IndexOf(s[1..], x)
  }

  /** List<T>.Remove: delete the first occurrence of x, if any. */
  function RemoveFirst<T(==)>(s: seq<T>, x: T): (r: seq<T>)
    ensures x !in s ==> r == s
    ensures x in s ==> |r| == |s| - 1
    ensures forall y :: y in r ==> y in s
    ensures forall y :: y in s && y != x ==> y in r
  {
    if s == [] then []
    else if s[0] == x then s[1..]
    else [s[0]] + RemoveFirst(s[1..], x)
  }

  /** Removing x splices it out at its first index: every other element keeps its relative order. */
  lemma {:induction false} RemoveFirstSplices<T>(s: seq<T>, x: T)
    requires x in s
    ensures RemoveFirst(s, x) == s[..IndexOf(s, x)] + s[IndexOf(s, x) + 1..]
  {
    if s[0] != x {
      RemoveFirstSplices(s[1..], x);
      var i := IndexOf(s[1..], x);
      assert s[..1 + i] == [s[0]] + s[1..][..i];
      assert s[1 + i + 1..] == s[1..][i + 1..];
    }
  }

  /** On a duplicate-free list, removal leaves a duplicate-free list without x. */
  lemma {:induction false} RemoveFirstNoDup<T>(s: seq<T>, x: T)
    requires NoDup(s)
    ensures NoDup(RemoveFirst(s, x))
    ensures x !in RemoveFirst(s, x)
  {
    if s != [] {
      assert NoDup(s[1..]) by {
        forall i, j | 0 <= i < j < |s[1..]| ensures s[1..][i] != s[1..][j] {
          assert s[1..][i] == s[i + 1] && s[1..][j] == s[j + 1];
        }
      }
      if s[0] == x {
        assert forall j :: 0 < j < |s| ==> s[j] != s[0];
      } else {
        RemoveFirstNoDup(s[1..], x);
        var r := RemoveFirst(s[1..], x);
        assert s[0] !in s[1..] by {
          assert forall j :: 0 < j < |s| ==> s[j] != s[0];
        }
        assert s[0] !in r;
        forall i, j | 0 <= i < j < |[s[0]] + r| ensures ([s[0]] + r)[i] != ([s[0]] + r)[j] {
          if i == 0 {
            assert ([s[0]] + r)[j] == r[j - 1];
          } else {
            assert ([s[0]] + r)[i] == r[i - 1] && ([s[0]] + r)[j] == r[j - 1];
          }
        }
      }
    }
  }

  /** Appending an element that is absent keeps a list duplicate-free. */
  lemma AppendNoDup<T>(s: seq<T>, x: T)
    requires NoDup(s) && x !in s
    ensures NoDup(s + [x])
  {
    forall i, j | 0 <= i < j < |s + [x]| ensures (s + [x])[i] != (s + [x])[j] {
      assert (s + [x])[i] == s[i];
      if j < |s| {
        assert (s + [x])[j] == s[j];
      }
    }
  }

  /** The board's zones: the hand list, the table list and the dragged-card slot. */
  datatype Board<T> = Board(hand: seq<T>, table: seq<T>, dragged: Option<T>)

  /** The partition invariant: both lists duplicate-free and disjoint, the dragged card in neither. */
  predicate Partitioned<T(==)>(b: Board<T>)
  {
    && NoDup(b.hand)
    && NoDup(b.table)
    && (forall c :: c in b.hand ==> c !in b.table)
    && (b.dragged.Some? ==> b.dragged.value !in b.hand && b.dragged.value !in b.table)
  }

  /** Card c is somewhere on the board: in the hand, on the table, or the dragged card. */
  predicate Placed<T(==)>(b: Board<T>, c: T)
  {
    c in b.hand || c in b.table || b.dragged == Some(c)
  }

  /** The boards `CreateCards` produces: every card in the hand in creation order, nothing else. */
  function Dealt<T>(cards: seq<T>): Board<T>
  {
    Board(cards, [], None)
  }

  /** OnCardDrag: with no card dragged, c leaves both lists and becomes the dragged card;
      otherwise the zones are left as they are. */
  function AfterDrag<T(==)>(b: Board<T>, c: T): (r: Board<T>)
    ensures b.dragged.Some? ==> r == b
    ensures b.dragged.None? ==> r.dragged == Some(c)
    ensures forall x :: x in r.hand ==> x in b.hand
    ensures forall x :: x in r.table ==> x in b.table
    ensures forall x :: x in b.hand && x != c ==> x in r.hand
    ensures forall x :: x in b.table && x != c ==> x in r.table
  {
    if b.dragged.None? then Board(RemoveFirst(b.hand, c), RemoveFirst(b.table, c), Some(c)) else b
  }

  /** OnCardDrop: only the dragged card is dropped; it goes to the end of the table when it is
      over the table and to the end of the hand otherwise, and the slot is emptied. */
  function AfterDrop<T(==)>(b: Board<T>, c: T, overTable: bool): (r: Board<T>)
    ensures b.dragged != Some(c) ==> r == b
    ensures b.dragged == Some(c) ==> r.dragged.None? && b.hand <= r.hand && b.table <= r.table
    ensures b.dragged == Some(c) ==> |r.hand| + |r.table| == |b.hand| + |b.table| + 1
    ensures b.dragged == Some(c) ==> (c in r.table <==> overTable || c in b.table) && (c in r.hand <==> !overTable || c in b.hand)
  {
    if b.dragged != Some(c) then b
    else if overTable then Board(b.hand, b.table + [c], None)
    else Board(b.hand + [c], b.table, None)
  }

  /** OnCardRemove: c leaves both lists; the dragged slot is not touched. */
  function AfterRemove<T(==)>(b: Board<T>, c: T): (r: Board<T>)
    ensures r.dragged == b.dragged
    ensures forall x :: x in r.hand ==> x in b.hand
    ensures forall x :: x in r.table ==> x in b.table
    ensures forall x :: x in b.hand && x != c ==> x in r.hand
    ensures forall x :: x in b.table && x != c ==> x in r.table
    ensures |r.hand| <= |b.hand| && |r.table| <= |b.table|
  {
    Board(RemoveFirst(b.hand, c), RemoveFirst(b.table, c), b.dragged)
  }

  /** A freshly dealt board satisfies the partition invariant when the cards are distinct. */
  lemma DealtPartitioned<T>(cards: seq<T>)
    requires NoDup(cards)
    ensures Partitioned(Dealt(cards))
    ensures forall c :: c in cards ==> Placed(Dealt(cards), c)
  {
  }

  /** Starting a drag with the slot empty: c is only the dragged card, each list loses exactly c
      and keeps its order, and the invariant holds. */
  lemma DragFromEmptySlot<T>(b: Board<T>, c: T)
    requires Partitioned(b) && b.dragged.None?
    ensures Partitioned(AfterDrag(b, c))
    ensures AfterDrag(b, c).dragged == Some(c)
    ensures c !in AfterDrag(b, c).hand && c !in AfterDrag(b, c).table
    ensures forall x :: x in AfterDrag(b, c).hand <==> x in b.hand && x != c
    ensures forall x :: x in AfterDrag(b, c).table <==> x in b.table && x != c
    ensures c in b.hand ==> AfterDrag(b, c).hand == b.hand[..IndexOf(b.hand, c)] + b.hand[IndexOf(b.hand, c) + 1..]
    ensures c in b.table ==> AfterDrag(b, c).table == b.table[..IndexOf(b.table, c)] + b.table[IndexOf(b.table, c) + 1..]
  {
    RemoveFirstNoDup(b.hand, c);
    RemoveFirstNoDup(b.table, c);
    if c in b.hand { RemoveFirstSplices(b.hand, c); }
    if c in b.table { RemoveFirstSplices(b.table, c); }
  }

  /** Dropping the dragged card puts it last in exactly one list and keeps the invariant;
      every other card stays where it was. */
  lemma DropDragged<T>(b: Board<T>, c: T, overTable: bool)
    requires Partitioned(b) && b.dragged == Some(c)
    ensures Partitioned(AfterDrop(b, c, overTable))
    ensures AfterDrop(b, c, overTable).dragged.None?
    ensures overTable ==> AfterDrop(b, c, overTable).table == b.table + [c] && AfterDrop(b, c, overTable).hand == b.hand
    ensures !overTable ==> AfterDrop(b, c, overTable).hand == b.hand + [c] && AfterDrop(b, c, overTable).table == b.table
    ensures forall x :: Placed(b, x) ==> Placed(AfterDrop(b, c, overTable), x)
  {
    if overTable { AppendNoDup(b.table, c); } else { AppendNoDup(b.hand, c); }
  }

  /** Removal keeps the invariant, takes c off both lists and leaves the dragged slot alone,
      so a dragged card that is removed stays the dragged card. */
  lemma RemoveKeepsPartition<T>(b: Board<T>, c: T)
    requires Partitioned(b)
    ensures Partitioned(AfterRemove(b, c))
    ensures c !in AfterRemove(b, c).hand && c !in AfterRemove(b, c).table
    ensures AfterRemove(b, c).dragged == b.dragged
    ensures forall x :: x != c && Placed(b, x) ==> Placed(AfterRemove(b, c), x)
  {
    RemoveFirstNoDup(b.hand, c);
    RemoveFirstNoDup(b.table, c);
  }

  /** Removing a card twice is the same as removing it once: the second OnCardRemove leaves the lists alone. */
  lemma RemoveTwice<T>(b: Board<T>, c: T)
    requires Partitioned(b)
    ensures AfterRemove(AfterRemove(b, c), c) == AfterRemove(b, c)
  {
    RemoveFirstNoDup(b.hand, c);
    RemoveFirstNoDup(b.table, c);
  }

  /** Every card the invariant places is in exactly one of the three zones. */
  lemma ExactlyOneZone<T>(b: Board<T>, c: T)
    requires Partitioned(b) && Placed(b, c)
    ensures (c in b.hand) != (c in b.table) || b.dragged == Some(c)
    ensures b.dragged == Some(c) ==> c !in b.hand && c !in b.table
    ensures !(c in b.hand && c in b.table)
  {
  }

  /** While one card is dragged, drag and drop events of every other card change nothing. */
  lemma SingleDrag<T>(b: Board<T>, d: T, c: T, overTable: bool)
    requires b.dragged == Some(d) && c != d
    ensures AfterDrag(b, c) == b
    ensures AfterDrop(b, c, overTable) == b
  {
  }
}
