# Order book: a verified model

This project models `OrderBook.h`. The order book keeps two ordered maps:

- `id_to_book_` holds the order records by id. It is the source of truth.
- `price_to_volume_` holds the aggregated volume per price level. It is derived from the records.

A level is keyed by a *signed price*: `+price` for a buy and `-price` for a sell.

The model has four modules:

- `Ledger` (`ledger.dfy`) is the value-level specification. It defines the records, the two maps as one `State`, and the pure functions `Add`, `Delete` and `Change`. It also defines the ledger invariant `Consistent`. The invariant says three things:
  - every record is stored under its own id;
  - every level holds exactly the sum of the volumes of the live orders at that price (0 when the level is absent);
  - no level is kept without a live order at it.

  The module proves that the three operations keep the invariant and how each one moves volume between levels.
- `Ranking` (`ranking.dfy`) defines the contract of the top-levels query as `Ranked`. An answer must:
  - hold min(10, number of levels) distinct levels;
  - list them by non-increasing exposure `|signed price * volume|`;
  - leave out no level that scores higher than one it returns.

  The module also has the in-place sort that `GetBestPrices` relies on, and the lemmas that connect a sorted listing of the levels to the contract. Two more lemmas pin the answer down: without ties, the answer is unique.
- `OrderBooks` (`order_book.dfy`) is the class `OrderBook`. Its two map fields are updated in place. Each mutator is proved to leave exactly the state the `Ledger` function computes, and to keep the invariant. `GetBestPrices` follows the source's three steps:
  1. copy the levels into a fresh array of pairs;
  2. sort the array in place;
  3. take the leading prices, stopping at 10.

  It is proved to return an answer satisfying `Ranked`.
- `BookTester` (`book_tester.dfy`) turns the tester's asserted scenarios into lemmas. Each lemma follows the same sequence of operations on the ledger value and proves the map or ranking the tester asserts. The class methods are proved to produce exactly these values, so the scenarios carry over to the object. For the ranking scenarios, the lemma proves that the asserted answer satisfies `Ranked` and that no other sequence does.

Two places where the code's behaviour differs from what one might expect are modelled as the code behaves:

- An order of volume 0 still creates its level with value 0 (`price_to_volume_[price] += 0`). So a stored level is positive only when every live order has a positive volume (`Ledger.PositiveVolumesPositiveLevels`). `Ledger.ZeroVolumeLevel` shows the 0-valued level. `Ledger.DeleteUndoesAdd` shows that this is also the one case where deleting a freshly added order does not restore the book.
- `std::sort` is not stable, so the code fixes no order among levels of equal exposure. `Ranked` allows any order of ties. `Ranking.RankedUnique` and `Ranking.StrictRankingIsOnlyAnswer` show that the answer is determined whenever there are no ties.

## Model

| member | source | states |
|---|---|---|
| Ledger.SignedPrice | OrderBook.h:38-41 | The level key is `+price` for a buy and `-price` for a sell. A positive key is a buy, a negative key is a sell, and key 0 means price 0. |
| Ledger.SamePriceLevel | OrderBook.h:38-44 | Two orders share a level exactly when they have the same price and the same side, or both have price 0 (buy and sell at 0 collide). |
| Ledger.EmptyConsistent | OrderBook.h:26-30 | A new book, with both maps empty, satisfies the ledger invariant. |
| Ledger.LevelVolumeInsert | OrderBook.h:43-44 | Storing a fresh record raises the total of its own level by its volume and leaves every other level's total unchanged. |
| Ledger.LevelVolumeErase | OrderBook.h:56-60 | Erasing a live record lowers the total of its own level by its volume and leaves every other level's total unchanged. |
| Ledger.AddPreservesConsistency | OrderBook.h:33-45 | Adding an order keeps every level equal to the sum of the volumes of the live orders at it, and keeps every level backed by a live order. |
| Ledger.DeletePreservesConsistency | OrderBook.h:47-62 | Deleting an order, including erasing a level left at 0 or below, keeps the same invariant. |
| Ledger.AddLiveIdIsNoOp | OrderBook.h:34-36 | Adding under an id already live changes nothing, whatever the new record's price, volume or side. |
| Ledger.AddIdempotent | OrderBook.h:33-45 | Adding the same order twice counts its volume once. |
| Ledger.DeleteIdempotent | OrderBook.h:47-62 | Deleting an id a second time changes nothing; an absent id is ignored. |
| Ledger.AddCommutes | OrderBook.h:43-44 | Orders with different ids may be added in either order; the two maps end up the same. |
| Ledger.DeleteUndoesAdd | OrderBook.h:33-62 | Deleting a freshly added order restores both maps, provided its level was absent or positive before. |
| Ledger.ZeroVolumeLevel | OrderBook.h:44-58 | An order of volume 0 at a new level leaves that level stored with value 0. Deleting a later order at that level erases the level altogether. |
| Ledger.ChangeAbsentIsNoOp | OrderBook.h:64-65 | Changing an id that is not live changes nothing. |
| Ledger.ChangeMovesOneOrder | OrderBook.h:64-69 | Changing a live order keeps the invariant and replaces exactly that record. At every level, the old record's volume leaves and the new record's volume joins; nothing else moves. |
| Ledger.PositiveVolumesPositiveLevels | OrderBook.h:56-58 | When every live order has positive volume, every stored level is positive. |
| Ledger.PositiveLevelsStored | OrderBook.h:43-58 | Every level whose live orders total a positive volume is stored, with that total. |
| OrderBooks.OrderBook.constructor | OrderBook.h:30 | A new book is empty and valid. |
| OrderBooks.OrderBook.AddBook | OrderBook.h:33-45 | The fields become exactly `Add` of the old state, and the invariant is kept. |
| OrderBooks.OrderBook.DeleteBook | OrderBook.h:47-62 | The fields become exactly `Delete` of the old state, and the invariant is kept. |
| OrderBooks.OrderBook.ChangeBook | OrderBook.h:64-69 | The fields become exactly `Change` of the old state: a delete then an add under the same id, or nothing when the id is absent. The invariant is kept. |
| OrderBooks.OrderBook.GetPriceMap | OrderBook.h:109-111 | The returned map holds, at every level, the total volume of the live orders there. Every stored level has a live order. |
| OrderBooks.OrderBook.GetBestPrices | OrderBook.h:86-107 | The result satisfies `Ranked`: min(10, number of levels) distinct stored levels, with non-increasing exposure, and no level left out scores above one returned. The book is not modified. |
| OrderBooks.CopyLevels | OrderBook.h:88-91 | The fresh array lists every level exactly once, each with its volume. |
| OrderBooks.LeadingPrices | OrderBook.h:98-104 | The result holds the prices of the first min(10, length) pairs, in order. |
| Ranking.SortByScore | OrderBook.h:93-96 | After the sort, the pairs are in order of non-increasing exposure and form a permutation of the original pairs. |
| Ranking.PermutationKeepsListing | OrderBook.h:88-96 | Reordering a listing of the levels leaves a listing of the same levels. |
| Ranking.SortedPrefixIsRanked | OrderBook.h:93-104 | The prices of the leading min(10, n) entries of a listing sorted by exposure satisfy `Ranked`. |
| Ranking.RankedUnique | OrderBook.h:93-96 | When no two levels tie on exposure, any two answers satisfying `Ranked` are equal. |
| Ranking.StrictlyRankedIsRanked | OrderBook.h:93-104 | A sequence with strictly decreasing exposures that covers min(n, number of levels) levels, with every level left out scoring below it, satisfies `Ranked`. |
| Ranking.StrictRankingIsOnlyAnswer | OrderBook.h:93-104 | If a sequence has strictly decreasing exposures and every level left out scores below all of it, then it is the only answer satisfying `Ranked`. |
| BookTester.TestAddBook | OrderBook.h:140-161 | After orders 1-3, after orders 4-5 and after orders 6-8, the level map is exactly the one the tester asserts. |
| BookTester.TestDeleteBook | OrderBook.h:201-228 | Deleting order 2 erases level 200. Re-adding at 100 gives 103. Deleting 8, 8 again, then 6 gives 50 at level 100. |
| BookTester.TestChangeBook | OrderBook.h:264-284 | Changing order 1 moves it from level 100 to 200, then to the sell side at -200. Three later orders give the asserted map. |
| BookTester.TestShowBookFirstThree | OrderBook.h:314-321 | After orders 1-3, a sequence satisfies `Ranked` exactly when it is `[200, -150, 100]`: the asserted answer is valid and no other is. |
| BookTester.TestShowBookSmallBuys | OrderBook.h:323-334 | After orders 1-12, a sequence satisfies `Ranked` exactly when it is `[200, -150, 100, 9, 8, 7, 6, 5, 4, 3]`. |
| BookTester.TestShowBookLargeBuys | OrderBook.h:336-341 | After orders 1-15, a sequence satisfies `Ranked` exactly when it is `[3, 2, 1, 200, -150, 100, 9, 8, 7, 6]`. |

## Left out

- `LogDuration.h` and every timing block in the tester: they measure wall-clock time and assert nothing. `LogDuration.h` is not part of this model.
- `ShowBestBooks` (OrderBook.h:71-84) only formats text to standard output.
- The tester's bulk loops (1000 and 1000000 adds, deletes, changes and queries) are left out. Their effect is covered by the per-operation contracts, and they assert nothing.
- 32-bit `int` arithmetic is not modelled. The unsigned id and price are converted to `int`, a level accumulates with `+=`, and the sort computes `price * volume`; all of these could wrap in the source. Signed overflow is undefined behaviour in C++, so the model uses unbounded integers and requires the conditions under which the source's arithmetic is exact:
- OrderBooks.OrderBook.AddBook: requires `CanAdd`: id and price at most 2^31-1, and the level total stays in range. Ids above 2^31-1, which the source would store under a negative key, are not modelled.
- OrderBooks.OrderBook.ChangeBook: requires `CanAdd` for the re-added record, for the same reason.
- OrderBooks.OrderBook.GetBestPrices: requires `ScoresFit`: every exposure `|price * volume|` at most 2^31-1, so the sort key does not overflow.
- Subtraction in `DeleteBook` cannot go below the level's true total, because of the invariant. So no wrap is modelled there.
- The iteration order of the copy loop. `std::map` visits levels in ascending key order. `OrderBooks.CopyLevels` visits them in an unspecified order. The sort that follows is not stable, so the order among ties is unspecified either way. The other orders are fixed by the sort.
- The order among levels of equal exposure: `OrderBooks.OrderBook.GetBestPrices` promises only the `Ranked` contract, as `std::sort` is not stable.
- Copying a whole `std::map` by value in `GetPriceMap` is modelled as returning the immutable map value.
- The scenario lemmas are stated on the ledger values the methods are proved to compute, not by calling the class methods one after another.
