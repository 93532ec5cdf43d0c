/**
  The order ledger of an order book: order records keyed by id (the source of
  truth) and the per-price-level aggregate volume derived from them.

  This module holds the values and the pure specification of the two
  mutators; the class in order_book.dfy updates its fields in place and is
  proved against the functions `Add` and `Delete` below.
 */
module Ledger {

  /** Largest value of a 32-bit signed `int`, the key and value type of both maps. */
  const MAX_INT: int := 0x7fff_ffff

  datatype BookType = Buy | Sell

  /** An order record; the unsigned fields are naturals. */
  datatype Book = Book(id: nat, price: nat, volume: nat, side: BookType)

  /** The two maps of an order book: id -> record, and signed price -> aggregated volume. */
  datatype State = State(orders: map<int, Book>, levels: map<int, int>)

  const Empty: State := State(map[], map[])

  /**
    The key of an order's price level: `+price` for a buy, `-price` for a sell.
    The sign tells the side apart, except at price 0 where both sides share key 0.
   */
  function SignedPrice(b: Book): (k: int)
    ensures k == b.price || k == -(b.price as int)
    ensures k > 0 ==> b.side == Buy
    ensures k < 0 ==> b.side == Sell
    ensures k == 0 <==> b.price == 0
  {
    match b.side
    case Buy => b.price
    case Sell => -(b.price as int)
  }

  /** Two orders share a price level exactly when they have the same side and price, or both have price 0. */
  lemma SamePriceLevel(b1: Book, b2: Book)
    ensures SignedPrice(b1) == SignedPrice(b2) <==>
            (b1.price == b2.price && (b1.side == b2.side || b1.price == 0))
  {
    if SignedPrice(b1) == SignedPrice(b2) && b1.side != b2.side {
      assert SignedPrice(b1) == -SignedPrice(b2);
    }
  }

  /** The value `operator[]` reads for a level: the stored volume, or 0 when the level is absent. */
  function VolumeAt(levels: map<int, int>, k: int): int {
    if k in levels then levels[k] else 0
  }

  /** The volume an order adds to level `k`. */
  function Contribution(b: Book, k: int): nat {
    if SignedPrice(b) == k then b.volume else 0
  }

  /** A set is empty or has a member (stated so that a choice from it can be justified). */
  lemma EmptyOrHasMember(ids: set<int>)
    ensures ids == {} || exists id :: id in ids
  {
    if forall id :: id !in ids {
      assert ids == {};
    }
  }

  /** The total volume at level `k` of the orders stored under the ids in `ids`. */
  ghost function LevelSum(orders: map<int, Book>, ids: set<int>, k: int): nat
    requires ids <= orders.Keys
    decreases ids
  {
    if ids == {} then 0
    else
      EmptyOrHasMember(ids);
      var id :| id in ids;
      Contribution(orders[id], k) + LevelSum(orders, ids - {id}, k)
  }

  /** The total volume at level `k` of all live orders. */
  ghost function LevelVolume(orders: map<int, Book>, k: int): nat {
    LevelSum(orders, orders.Keys, k)
  }

  /** The levels at which at least one live order rests. */
  ghost function LivePrices(orders: map<int, Book>): set<int> {
    set id | id in orders :: SignedPrice(orders[id])
  }

  /**
    The ledger invariant: every record is stored under its own id, every level
    holds (0 when absent) the sum of the volumes of the live orders at that level,
    and no level is kept without a live order at it.
   */
  ghost predicate Consistent(s: State) {
    && (forall id :: id in s.orders ==> s.orders[id].id == id)
    && (forall k :: VolumeAt(s.levels, k) == LevelVolume(s.orders, k))
    && s.levels.Keys <= LivePrices(s.orders)
  }

  /**
    What adding `b` demands so that the 32-bit arithmetic of the source is exact:
    id and price convert to `int` unchanged and the level sum does not overflow.
   */
  predicate CanAdd(s: State, b: Book) {
    && b.id <= MAX_INT
    && b.price <= MAX_INT
    && (b.id in s.orders || VolumeAt(s.levels, SignedPrice(b)) + b.volume <= MAX_INT)
  }

  /** Adding an order: ignored when its id is live, otherwise stored and counted at its level. */
  function Add(s: State, b: Book): State {
    if b.id in s.orders then s
    else
      var k := SignedPrice(b);
      State(s.orders[b.id := b], s.levels[k := VolumeAt(s.levels, k) + b.volume])
  }

  /** Deleting an order: ignored when the id is absent, otherwise uncounted and removed; a level left at 0 or below is erased. */
  function Delete(s: State, id: int): State {
    if id !in s.orders then s
    else
      var b := s.orders[id];
      var k := SignedPrice(b);
      var v := VolumeAt(s.levels, k) - b.volume;
      State(s.orders - {id}, if v <= 0 then s.levels - {k} else s.levels[k := v])
  }

  /** Changing an order: ignored when the id is absent, otherwise a delete followed by an add of the new record under the same id. */
  function Change(s: State, id: nat, price: nat, volume: nat, side: BookType): State {
    if id in s.orders then Add(Delete(s, id), Book(id, price, volume, side)) else s
  }

  // ---------------------------------------------------------------------------
  // Level sums

  lemma {:induction false} LevelSumRemove(orders: map<int, Book>, ids: set<int>, j: int, k: int)
    requires ids <= orders.Keys && j in ids
    ensures LevelSum(orders, ids, k) == Contribution(orders[j], k) + LevelSum(orders, ids - {j}, k)
    decreases ids
  {
    var i :| i in ids && LevelSum(orders, ids, k) == Contribution(orders[i], k) + LevelSum(orders, ids - {i}, k);
    if i != j {
      LevelSumRemove(orders, ids - {i}, j, k);
      LevelSumRemove(orders, ids - {j}, i, k);
      assert ids - {i} - {j} == ids - {j} - {i};
    }
  }

  lemma {:induction false} LevelSumFrame(o1: map<int, Book>, o2: map<int, Book>, ids: set<int>, k: int)
    requires ids <= o1.Keys && ids <= o2.Keys
    requires forall id :: id in ids ==> o1[id] == o2[id]
    ensures LevelSum(o1, ids, k) == LevelSum(o2, ids, k)
    decreases ids
  {
    if ids != {} {
      EmptyOrHasMember(ids);
      var i :| i in ids;
      LevelSumRemove(o1, ids, i, k);
      LevelSumRemove(o2, ids, i, k);
      LevelSumFrame(o1, o2, ids - {i}, k);
    }
  }

  /** A level with a positive sum has a live order at it. */
  lemma {:induction false} LevelSumPositive(orders: map<int, Book>, ids: set<int>, k: int)
    requires ids <= orders.Keys && LevelSum(orders, ids, k) > 0
    ensures exists id :: id in ids && SignedPrice(orders[id]) == k
    decreases ids
  {
    assert ids != {};
    EmptyOrHasMember(ids);
    var i :| i in ids;
    LevelSumRemove(orders, ids, i, k);
    if SignedPrice(orders[i]) != k {
      LevelSumPositive(orders, ids - {i}, k);
    }
  }

  /** Storing a fresh order raises exactly its own level, by its volume. */
  lemma LevelVolumeInsert(orders: map<int, Book>, b: Book, k: int)
    requires b.id !in orders
    ensures LevelVolume(orders[b.id := b], k) == LevelVolume(orders, k) + Contribution(b, k)
  {
    var grown := orders[b.id := b];
    LevelSumRemove(grown, grown.Keys, b.id, k);
    assert grown.Keys - {b.id} == orders.Keys;
    LevelSumFrame(grown, orders, orders.Keys, k);
  }

  /** Removing a live order lowers exactly its own level, by its volume. */
  lemma LevelVolumeErase(orders: map<int, Book>, id: int, k: int)
    requires id in orders
    ensures LevelVolume(orders - {id}, k) + Contribution(orders[id], k) == LevelVolume(orders, k)
  {
    var shrunk := orders - {id};
    LevelSumRemove(orders, orders.Keys, id, k);
    assert shrunk.Keys == orders.Keys - {id};
    LevelSumFrame(shrunk, orders, shrunk.Keys, k);
  }

  // ---------------------------------------------------------------------------
  // The ledger invariant under the operations

  lemma EmptyConsistent()
    ensures Consistent(Empty)
  {
    forall k ensures VolumeAt(Empty.levels, k) == LevelVolume(Empty.orders, k) {
      assert Empty.orders.Keys == {};
    }
  }

  lemma AddPreservesConsistency(s: State, b: Book)
    requires Consistent(s)
    ensures Consistent(Add(s, b))
  {
    if b.id !in s.orders {
      var t := Add(s, b);
      forall k ensures VolumeAt(t.levels, k) == LevelVolume(t.orders, k) {
        LevelVolumeInsert(s.orders, b, k);
      }
      forall k | k in t.levels ensures k in LivePrices(t.orders) {
        if k == SignedPrice(b) {
          assert t.orders[b.id] == b;
        } else {
          var id :| id in s.orders && SignedPrice(s.orders[id]) == k;
          assert t.orders[id] == s.orders[id];
        }
      }
    }
  }

  lemma DeletePreservesConsistency(s: State, id: int)
    requires Consistent(s)
    ensures Consistent(Delete(s, id))
  {
    if id in s.orders {
      var t := Delete(s, id);
      var b := s.orders[id];
      forall k ensures VolumeAt(t.levels, k) == LevelVolume(t.orders, k) {
        LevelVolumeErase(s.orders, id, k);
      }
      forall k | k in t.levels ensures k in LivePrices(t.orders) {
        if k == SignedPrice(b) {
          assert VolumeAt(t.levels, k) > 0;
          LevelSumPositive(t.orders, t.orders.Keys, k);
        } else {
          var other :| other in s.orders && SignedPrice(s.orders[other]) == k;
          assert other in t.orders && t.orders[other] == s.orders[other];
        }
      }
    }
  }

  /** Adding under a live id changes nothing, whatever the rest of the new record. */
  lemma AddLiveIdIsNoOp(s: State, b: Book)
    requires b.id in s.orders
    ensures Add(s, b) == s
  {
  }

  /** Adding the same order twice counts its volume once. */
  lemma AddIdempotent(s: State, b: Book)
    ensures Add(Add(s, b), b) == Add(s, b)
  {
  }

  /** Deleting an id twice leaves the state of deleting it once. */
  lemma DeleteIdempotent(s: State, id: int)
    ensures Delete(Delete(s, id), id) == Delete(s, id)
  {
  }

  /** Orders with different ids can be added in either order: the level totals do not depend on arrival order. */
  lemma AddCommutes(s: State, b1: Book, b2: Book)
    requires b1.id != b2.id
    ensures Add(Add(s, b1), b2) == Add(Add(s, b2), b1)
  {
    if b1.id !in s.orders && b2.id !in s.orders {
      var k1, k2 := SignedPrice(b1), SignedPrice(b2);
      var l12, l21 := Add(Add(s, b1), b2).levels, Add(Add(s, b2), b1).levels;
      assert forall k :: k in l12 <==> k in l21;
      forall k | k in l12 ensures l12[k] == l21[k] {
      }
      assert l12 == l21;
    }
  }

  /**
    Deleting a freshly added order restores the ledger, provided its level was
    absent or positive before. A level that held 0 (left by an order of volume
    0) is erased instead, so that case does not round-trip.
   */
  lemma DeleteUndoesAdd(s: State, b: Book)
    requires b.id !in s.orders
    requires SignedPrice(b) in s.levels ==> s.levels[SignedPrice(b)] > 0
    ensures Delete(Add(s, b), b.id) == s
  {
    var k := SignedPrice(b);
    var t := Delete(Add(s, b), b.id);
    assert t.orders == s.orders;
    assert t.levels == s.levels;
  }

  /** An order of volume 0 at a new level leaves a level holding 0, and deleting a later order there erases it. */
  lemma ZeroVolumeLevel()
    ensures var s := Add(Empty, Book(1, 100, 0, Buy));
            && s.levels == map[100 := 0]
            && Delete(Add(s, Book(2, 100, 5, Buy)), 2).levels == map[]
  {
    var s := Add(Empty, Book(1, 100, 0, Buy));
    assert s.levels == map[100 := 0];
    var t := Delete(Add(s, Book(2, 100, 5, Buy)), 2);
    assert t.levels == map[100 := 5] - {100};
  }

  /** Changing an absent id changes nothing. */
  lemma ChangeAbsentIsNoOp(s: State, id: nat, price: nat, volume: nat, side: BookType)
    requires id !in s.orders
    ensures Change(s, id, price, volume, side) == s
  {
  }

  /**
    Changing a live order keeps the ledger consistent, stores the new record in
    place of the old one, and moves volume only between the two levels involved:
    the old record's volume leaves its level and the new record's joins its level.
   */
  lemma ChangeMovesOneOrder(s: State, id: nat, price: nat, volume: nat, side: BookType)
    requires Consistent(s) && id in s.orders
    ensures var nb := Book(id, price, volume, side);
            var t := Change(s, id, price, volume, side);
            && Consistent(t)
            && t.orders == s.orders[id := nb]
            && forall k :: VolumeAt(t.levels, k) == VolumeAt(s.levels, k) - Contribution(s.orders[id], k) + Contribution(nb, k)
  {
    var nb := Book(id, price, volume, side);
    var d := Delete(s, id);
    DeletePreservesConsistency(s, id);
    AddPreservesConsistency(d, nb);
    var t := Add(d, nb);
    assert t.orders == s.orders[id := nb];
    forall k ensures VolumeAt(t.levels, k) == VolumeAt(s.levels, k) - Contribution(s.orders[id], k) + Contribution(nb, k) {
      LevelVolumeErase(s.orders, id, k);
      LevelVolumeInsert(d.orders, nb, k);
    }
  }

  /** When every live order has a positive volume, every stored level is positive. */
  lemma PositiveVolumesPositiveLevels(s: State)
    requires Consistent(s)
    requires forall id :: id in s.orders ==> s.orders[id].volume > 0
    ensures forall k :: k in s.levels ==> s.levels[k] > 0
  {
    forall k | k in s.levels ensures s.levels[k] > 0 {
      var id :| id in s.orders && SignedPrice(s.orders[id]) == k;
      LevelSumRemove(s.orders, s.orders.Keys, id, k);
      assert VolumeAt(s.levels, k) == s.levels[k];
    }
  }

  /** Every level whose live orders total a positive volume is stored, with that total. */
  lemma PositiveLevelsStored(s: State, k: int)
    requires Consistent(s) && LevelVolume(s.orders, k) > 0
    ensures k in s.levels && s.levels[k] == LevelVolume(s.orders, k)
  {
    assert VolumeAt(s.levels, k) == LevelVolume(s.orders, k);
  }
}
