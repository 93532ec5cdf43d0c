/**
  The asserted scenarios of the book tester. Each lemma follows one fixed
  sequence of operations on the ledger value (the object's methods are proved
  to produce exactly these values) and states the aggregate or the ranking
  that the tester expects.
 */
module BookTester {
  import opened Ledger
  import opened Ranking
  import opened OrderBooks

  /** Orders 1 to 3 of the tester: buys at 100 and 200, a sell at 150. */
  function FirstThree(): State {
    Add(Add(Add(Empty, Book(1, 100, 23, Buy)), Book(2, 200, 63, Buy)), Book(3, 150, 55, Sell))
  }

  /** Orders 6 to 8 of the tester: three more buys at 100. */
  function ThreeMoreAt100(s: State): State {
    Add(Add(Add(s, Book(6, 100, 23, Buy)), Book(7, 100, 27, Buy)), Book(8, 100, 30, Buy))
  }

  /** Three buys at consecutive ids and consecutive prices. */
  function ThreeBuys(s: State, id: nat, price: nat, v1: nat, v2: nat, v3: nat): State {
    Add(Add(Add(s, Book(id, price, v1, Buy)), Book(id + 1, price + 1, v2, Buy)), Book(id + 2, price + 2, v3, Buy))
  }

  /** Orders 4 to 12 of the ranking test: a buy of 100 at each price from 1 to 9. */
  function SmallBuys(s: State): State {
    ThreeBuys(ThreeBuys(ThreeBuys(s, 4, 1, 100, 100, 100), 7, 4, 100, 100, 100), 10, 7, 100, 100, 100)
  }

  /** Orders 13 to 15 of the ranking test: large buys at prices 1 to 3. */
  function LargeBuys(s: State): State {
    ThreeBuys(s, 13, 1, 100000, 65000, 55000)
  }

  /** Orders 4 and 5 of the tester after orders 1 to 3. */
  function FirstFive(): State {
    Add(Add(FirstThree(), Book(4, 150, 5, Sell)), Book(5, 150, 47, Buy))
  }

  lemma TestAddBook()
    ensures FirstThree().levels == map[-150 := 55, 100 := 23, 200 := 63]
    ensures FirstFive().levels == map[-150 := 60, 100 := 23, 150 := 47, 200 := 63]
    ensures ThreeMoreAt100(FirstFive()).levels == map[-150 := 60, 100 := 103, 150 := 47, 200 := 63]
  {
    FirstThreeValue();
    OrdersFourAndFive(FirstThree());
    ThreeMoreAt100Fresh(FirstFive());
  }

  /** Orders 4 and 5 of the tester join the sell level at 150 and open the buy level at 150. */
  lemma OrdersFourAndFive(s: State)
    requires s.orders.Keys == {1, 2, 3} && s.levels == ThreeLevels()
    ensures var t := Add(Add(s, Book(4, 150, 5, Sell)), Book(5, 150, 47, Buy));
      t.orders.Keys == {1, 2, 3, 4, 5} && t.levels == map[-150 := 60, 100 := 23, 150 := 47, 200 := 63]
  {
  }

  /** Orders 6 to 8 of the tester add 80 to the buy level at 100. */
  lemma ThreeMoreAt100Fresh(s: State)
    requires 6 !in s.orders && 7 !in s.orders && 8 !in s.orders
    ensures ThreeMoreAt100(s).levels == s.levels[100 := VolumeAt(s.levels, 100) + 80]
  {
  }

  lemma TestDeleteBook()
    ensures var s := Delete(FirstThree(), 2);
            && s.levels == map[-150 := 55, 100 := 23]
            && ThreeMoreAt100(s).levels == map[-150 := 55, 100 := 103]
            && Delete(Delete(Delete(ThreeMoreAt100(s), 8), 8), 6).levels == map[-150 := 55, 100 := 50]
  {
    FirstThreeValue();
  }

  lemma TestChangeBook()
    ensures var s1 := Add(Empty, Book(1, 100, 23, Buy));
            var s2 := Change(s1, 1, 200, 54, Buy);
            var s3 := Change(s2, 1, 200, 54, Sell);
            var s4 := Add(Add(Add(s3, Book(2, 200, 63, Buy)), Book(3, 150, 55, Sell)), Book(4, 200, 15, Sell));
            && s1.levels == map[100 := 23]
            && s2.levels == map[200 := 54]
            && s3.levels == map[-200 := 54]
            && s4.levels == map[-200 := 69, -150 := 55, 200 := 63]
  {
  }

  /** After orders 1 to 3, the ranking query has exactly one answer: the one the tester expects. */
  lemma TestShowBookFirstThree(prices: seq<int>)
    ensures Ranked(FirstThree().levels, prices, TOP_LEVELS) <==> prices == [200, -150, 100]
  {
    var levels := map[100 := 23, 200 := 63, -150 := 55];
    assert FirstThree().levels == levels;
    assert LevelScore(levels, 200) == 12600 && LevelScore(levels, -150) == 8250 && LevelScore(levels, 100) == 2300;
    assert DistinctScores(levels);
    assert Ranked(levels, [200, -150, 100], TOP_LEVELS);
    if Ranked(levels, prices, TOP_LEVELS) {
      RankedUnique(levels, prices, [200, -150, 100], TOP_LEVELS);
    }
  }

  /** After orders 1 to 12, the ranking query has exactly one answer: the one the tester expects. */
  lemma TestShowBookSmallBuys(prices: seq<int>)
    ensures Ranked(SmallBuys(FirstThree()).levels, prices, TOP_LEVELS) <==> prices == [200, -150, 100, 9, 8, 7, 6, 5, 4, 3]
  {
    SmallBuysValue();
    SmallBuysStrictlyRanked();
    StrictlyRankedIsRanked(TwelveLevels(), [200, -150, 100, 9, 8, 7, 6, 5, 4, 3], TOP_LEVELS);
    if Ranked(TwelveLevels(), prices, TOP_LEVELS) {
      StrictRankingIsOnlyAnswer(TwelveLevels(), [200, -150, 100, 9, 8, 7, 6, 5, 4, 3], prices, TOP_LEVELS);
    }
  }

  /** After orders 1 to 15, the ranking query has exactly one answer: the one the tester expects. */
  lemma TestShowBookLargeBuys(prices: seq<int>)
    ensures Ranked(LargeBuys(SmallBuys(FirstThree())).levels, prices, TOP_LEVELS) <==> prices == [3, 2, 1, 200, -150, 100, 9, 8, 7, 6]
  {
    LargeBuysValue();
    LargeBuysStrictlyRanked();
    StrictlyRankedIsRanked(FifteenLevels(), [3, 2, 1, 200, -150, 100, 9, 8, 7, 6], TOP_LEVELS);
    if Ranked(FifteenLevels(), prices, TOP_LEVELS) {
      StrictRankingIsOnlyAnswer(FifteenLevels(), [3, 2, 1, 200, -150, 100, 9, 8, 7, 6], prices, TOP_LEVELS);
    }
  }

  // ---------------------------------------------------------------------------
  // Evaluating the ranking scenarios step by step

  /** Three buys whose ids are not live add their volumes to their levels and nothing else. */
  lemma ThreeFreshBuys(s: State, id: nat, price: nat, v1: nat, v2: nat, v3: nat)
    requires id !in s.orders && id + 1 !in s.orders && id + 2 !in s.orders
    ensures var t := ThreeBuys(s, id, price, v1, v2, v3);
      && t.orders.Keys == s.orders.Keys + {id, id + 1, id + 2}
      && t.levels == s.levels[price := VolumeAt(s.levels, price) + v1]
                             [price + 1 := VolumeAt(s.levels, price + 1) + v2]
                             [price + 2 := VolumeAt(s.levels, price + 2) + v3]
  {
  }

  /** The levels after orders 1 to 3. */
  function ThreeLevels(): map<int, int> {
    map[100 := 23, 200 := 63, -150 := 55]
  }

  /** The levels after orders 1 to 12. */
  function TwelveLevels(): map<int, int> {
    ThreeLevels()[1 := 100][2 := 100][3 := 100][4 := 100][5 := 100][6 := 100][7 := 100][8 := 100][9 := 100]
  }

  /** The levels after orders 1 to 15. */
  function FifteenLevels(): map<int, int> {
    TwelveLevels()[1 := 100100][2 := 65100][3 := 55100]
  }

  lemma FirstThreeValue()
    ensures FirstThree().orders.Keys == {1, 2, 3} && FirstThree().levels == ThreeLevels()
  {
  }

  lemma SmallBuysValue()
    ensures SmallBuys(FirstThree()).orders.Keys == {1, 2, 3, 4, 5, 6, 7, 8, 9, 10, 11, 12}
    ensures SmallBuys(FirstThree()).levels == TwelveLevels()
  {
    FirstThreeValue();
    SmallBuysFrom(FirstThree());
  }

  lemma SmallBuysFrom(s3: State)
    requires s3.orders.Keys == {1, 2, 3} && s3.levels == ThreeLevels()
    ensures SmallBuys(s3).orders.Keys == {1, 2, 3, 4, 5, 6, 7, 8, 9, 10, 11, 12}
    ensures SmallBuys(s3).levels == TwelveLevels()
  {
    var s6 := ThreeBuys(s3, 4, 1, 100, 100, 100);
    BuysAt1To3(s3);
    var s9 := ThreeBuys(s6, 7, 4, 100, 100, 100);
    BuysAt4To6(s6);
    BuysAt7To9(s9);
  }

  lemma BuysAt1To3(s: State)
    requires s.orders.Keys == {1, 2, 3} && s.levels == ThreeLevels()
    ensures var t := ThreeBuys(s, 4, 1, 100, 100, 100);
      t.orders.Keys == {1, 2, 3, 4, 5, 6} && t.levels == ThreeLevels()[1 := 100][2 := 100][3 := 100]
  {
    ThreeFreshBuys(s, 4, 1, 100, 100, 100);
  }

  lemma BuysAt4To6(s: State)
    requires s.orders.Keys == {1, 2, 3, 4, 5, 6} && s.levels == ThreeLevels()[1 := 100][2 := 100][3 := 100]
    ensures var t := ThreeBuys(s, 7, 4, 100, 100, 100);
      t.orders.Keys == {1, 2, 3, 4, 5, 6, 7, 8, 9} && t.levels == ThreeLevels()[1 := 100][2 := 100][3 := 100][4 := 100][5 := 100][6 := 100]
  {
    ThreeFreshBuys(s, 7, 4, 100, 100, 100);
  }

  lemma BuysAt7To9(s: State)
    requires s.orders.Keys == {1, 2, 3, 4, 5, 6, 7, 8, 9}
    requires s.levels == ThreeLevels()[1 := 100][2 := 100][3 := 100][4 := 100][5 := 100][6 := 100]
    ensures var t := ThreeBuys(s, 10, 7, 100, 100, 100);
      t.orders.Keys == {1, 2, 3, 4, 5, 6, 7, 8, 9, 10, 11, 12} && t.levels == TwelveLevels()
  {
    ThreeFreshBuys(s, 10, 7, 100, 100, 100);
  }

  lemma LargeBuysValue()
    ensures LargeBuys(SmallBuys(FirstThree())).levels == FifteenLevels()
  {
    SmallBuysValue();
    LargeBuysFrom(SmallBuys(FirstThree()));
  }

  lemma LargeBuysFrom(s12: State)
    requires s12.orders.Keys == {1, 2, 3, 4, 5, 6, 7, 8, 9, 10, 11, 12} && s12.levels == TwelveLevels()
    ensures LargeBuys(s12).levels == FifteenLevels()
  {
    ThreeFreshBuys(s12, 13, 1, 100000, 65000, 55000);
  }

  lemma TwelveLevelsCount()
    ensures |TwelveLevels()| == 12
  {
    assert |ThreeLevels()| == 3;
    assert |ThreeLevels()[1 := 100][2 := 100][3 := 100]| == 6;
    assert |ThreeLevels()[1 := 100][2 := 100][3 := 100][4 := 100][5 := 100][6 := 100]| == 9;
  }

  lemma FifteenLevelsCount()
    ensures |FifteenLevels()| == 12
  {
    TwelveLevelsCount();
    assert FifteenLevels().Keys == TwelveLevels().Keys;
  }

  lemma TwelveScores()
    ensures var levels := TwelveLevels();
      && LevelScore(levels, 200) == 12600 && LevelScore(levels, -150) == 8250 && LevelScore(levels, 100) == 2300
      && LevelScore(levels, 1) == 100 && LevelScore(levels, 2) == 200 && LevelScore(levels, 3) == 300
      && LevelScore(levels, 4) == 400 && LevelScore(levels, 5) == 500 && LevelScore(levels, 6) == 600
      && LevelScore(levels, 7) == 700 && LevelScore(levels, 8) == 800 && LevelScore(levels, 9) == 900
  {
  }

  lemma FifteenScores()
    ensures var levels := FifteenLevels();
      && LevelScore(levels, 200) == 12600 && LevelScore(levels, -150) == 8250 && LevelScore(levels, 100) == 2300
      && LevelScore(levels, 1) == 100100 && LevelScore(levels, 2) == 130200 && LevelScore(levels, 3) == 165300
      && LevelScore(levels, 4) == 400 && LevelScore(levels, 5) == 500 && LevelScore(levels, 6) == 600
      && LevelScore(levels, 7) == 700 && LevelScore(levels, 8) == 800 && LevelScore(levels, 9) == 900
  {
  }

  lemma SmallBuysStrictlyRanked()
    ensures StrictlyRanked(TwelveLevels(), [200, -150, 100, 9, 8, 7, 6, 5, 4, 3], TOP_LEVELS)
  {
    TwelveLevelsCount();
    SmallBuysScores();
  }

  lemma SmallBuysScores()
    ensures var levels, e := TwelveLevels(), [200, -150, 100, 9, 8, 7, 6, 5, 4, 3];
      && (forall i :: 0 <= i < |e| ==> e[i] in levels)
      && (forall i :: 0 < i < |e| ==> LevelScore(levels, e[i - 1]) > LevelScore(levels, e[i]))
      && (forall k :: k in levels && k !in e ==> LevelScore(levels, k) < LevelScore(levels, e[|e| - 1]))
  {
    TwelveScores();
  }

  lemma LargeBuysStrictlyRanked()
    ensures StrictlyRanked(FifteenLevels(), [3, 2, 1, 200, -150, 100, 9, 8, 7, 6], TOP_LEVELS)
  {
    FifteenLevelsCount();
    LargeBuysScores();
  }

  lemma LargeBuysScores()
    ensures var levels, e := FifteenLevels(), [3, 2, 1, 200, -150, 100, 9, 8, 7, 6];
      && (forall i :: 0 <= i < |e| ==> e[i] in levels)
      && (forall i :: 0 < i < |e| ==> LevelScore(levels, e[i - 1]) > LevelScore(levels, e[i]))
      && (forall k :: k in levels && k !in e ==> LevelScore(levels, k) < LevelScore(levels, e[|e| - 1]))
  {
    FifteenScores();
  }
}
