/**
  The order book object: the two maps it owns, the three mutators that keep
  the price-level aggregate in step with the order records, and the two
  read-only queries.
 */
module OrderBooks {
  import opened Ledger
  import opened Ranking

  class OrderBook {
    /** Order records by id: the source of truth. */
    var idToBook: map<int, Book>
    /** Aggregated volume by signed price: the index derived from `idToBook`. */
    var priceToVolume: map<int, int>

    /** The two maps as one value, for stating what each operation does. */
    function Snapshot(): State
      reads this
    {
      State(idToBook, priceToVolume)
    }

    ghost predicate Valid()
      reads this
    {
      Consistent(Snapshot())
    }

    constructor ()
      ensures Valid() && Snapshot() == Empty
    {
      idToBook := map[];
      priceToVolume := map[];
      new;
      EmptyConsistent();
    }

    /** Stores a new order and adds its volume to its level; does nothing if the id is live. */
    method AddBook(b: Book)
      requires Valid() && CanAdd(Snapshot(), b)
      modifies this
      ensures Valid()
      ensures Snapshot() == Add(old(Snapshot()), b)
    {
      if b.id in idToBook {
        return;
      }
      var price := SignedPrice(b);
      idToBook := idToBook[b.id := b];
      priceToVolume := priceToVolume[price := VolumeAt(priceToVolume, price) + b.volume];
      AddPreservesConsistency(old(Snapshot()), b);
    }

    /** Removes an order and its volume from its level, erasing a level left at 0 or below; does nothing if the id is absent. */
    method DeleteBook(bookId: int)
      requires Valid()
      modifies this
      ensures Valid()
      ensures Snapshot() == Delete(old(Snapshot()), bookId)
    {
      if bookId in idToBook {
        var b := idToBook[bookId];
        var price := SignedPrice(b);
        priceToVolume := priceToVolume[price := VolumeAt(priceToVolume, price) - b.volume];
        if priceToVolume[price] <= 0 {
          priceToVolume := priceToVolume - {price};
        }
        idToBook := idToBook - {bookId};
      }
      DeletePreservesConsistency(old(Snapshot()), bookId);
    }

    /** Replaces a live order by deleting it and adding the new record under the same id; does nothing if the id is absent. */
    method ChangeBook(bookId: nat, newPrice: nat, newVolume: nat, newSide: BookType)
      requires Valid()
      requires bookId in idToBook ==> CanAdd(Delete(Snapshot(), bookId), Book(bookId, newPrice, newVolume, newSide))
      modifies this
      ensures Valid()
      ensures Snapshot() == Change(old(Snapshot()), bookId, newPrice, newVolume, newSide)
    {
      if bookId in idToBook {
        DeleteBook(bookId);
        AddBook(Book(bookId, newPrice, newVolume, newSide));
      }
    }

    /** The aggregate: at every level, the total volume of the live orders there. */
    function GetPriceMap(): (levels: map<int, int>)
      reads this
      requires Valid()
      ensures forall k :: VolumeAt(levels, k) == LevelVolume(idToBook, k)
      ensures levels.Keys <= LivePrices(idToBook)
    {
      priceToVolume
    }

    /**
      The signed prices of the (at most) TOP_LEVELS levels of highest exposure,
      highest first. The book is not changed.
     */
    method GetBestPrices() returns (prices: seq<int>)
      requires ScoresFit(priceToVolume)
      ensures Ranked(priceToVolume, prices, TOP_LEVELS)
    {
      var levels := priceToVolume;
      var pairs := CopyLevels(levels);
      ghost var copied := pairs[..];
      SortByScore(pairs);
      PermutationKeepsListing(levels, copied, pairs[..]);
      prices := LeadingPrices(pairs);
      SortedPrefixIsRanked(levels, pairs[..], prices, TOP_LEVELS);
    }
  }

  /** The first loop of GetBestPrices: copies every level into a fresh buffer of (signed price, volume) pairs. */
  method CopyLevels(levels: map<int, int>) returns (pairs: array<(int, int)>)
    ensures fresh(pairs)
    ensures Listing(levels, pairs[..])
  {
    pairs := new (int, int)[|levels|];
    var rest := levels.Keys;
    var n := 0;
    while rest != {}
      invariant rest <= levels.Keys
      invariant n + |rest| == pairs.Length
      invariant forall i :: 0 <= i < n ==> pairs[i].0 in levels && pairs[i].0 !in rest && pairs[i].1 == levels[pairs[i].0]
      invariant forall i, j :: 0 <= i < j < n ==> pairs[i].0 != pairs[j].0
      invariant forall k :: k in levels && k !in rest ==> (k, levels[k]) in pairs[..n]
      decreases rest
    {
      EmptyOrHasMember(rest);
      var k :| k in rest;
      ghost var before := pairs[..n];
      pairs[n] := (k, levels[k]);
      assert pairs[..n + 1] == before + [(k, levels[k])];
      rest := rest - {k};
      n := n + 1;
    }
    assert pairs[..] == pairs[..n];
  }

  /** The last loop of GetBestPrices: the signed prices of the first TOP_LEVELS pairs, or of all when there are fewer. */
  method LeadingPrices(pairs: array<(int, int)>) returns (prices: seq<int>)
    ensures |prices| == Min(TOP_LEVELS, pairs.Length)
    ensures forall j :: 0 <= j < |prices| ==> prices[j] == pairs[j].0
  {
    prices := [];
    var i := 0;
    while i < pairs.Length
      invariant 0 <= i <= pairs.Length && i < TOP_LEVELS
      invariant |prices| == i && forall j :: 0 <= j < i ==> prices[j] == pairs[j].0
    {
      prices := prices + [pairs[i].0];
      if |prices| == TOP_LEVELS {
        break;
      }
      i := i + 1;
    }
  }
}
