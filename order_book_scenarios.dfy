/**
 * The three order-book walkthroughs of the repository's unit tests, on a
 * ladder of MAX_PRICE_LEVELS levels with the symbol "MSFT    ".
 *
 * Every state a walkthrough passes through is written out as a `Book` value;
 * one lemma per message shows that the transition of `BookState` leads from
 * one written-out state to the next, and one lemma per state gives the top of
 * book it publishes. A method then drives an `OrderBook` through the opening
 * messages and returns the tops it reads back.
 */
module OrderBookScenarios {
  import opened FixedWidth
  import opened CommonTypes
  import opened ItchMessages
  import opened BookState
  import opened LimitOrderBook

  const N := MAX_PRICE_LEVELS

  function Empty(): seq<PriceLevel>
  {
    seq(N, _ => EMPTY_LEVEL)
  }

  function Top(b: Book): TopOfBook
    requires |b.bids| == N && |b.asks| == N
  {
    TopOf(b.bids, b.asks)
  }

  const BID_101 := BookOrder(1500000, 100, Buy)
  const BID_102 := BookOrder(1500100, 200, Buy)
  const ASK_201 := BookOrder(1500500, 150, Sell)
  const ASK_202 := BookOrder(1500400, 250, Sell)

  // ------------------------------------------------ first walkthrough: adds

  function OneBid(): Book
  {
    Book(Empty()[1500000 := PriceLevel(100, 1)], Empty(), map[101 := BID_101])
  }

  function TwoBids(): Book
  {
    Book(Empty()[1500000 := PriceLevel(100, 1)][1500100 := PriceLevel(200, 1)], Empty(),
         map[101 := BID_101, 102 := BID_102])
  }

  function TwoBidsOneAsk(): Book
  {
    Book(TwoBids().bids, Empty()[1500500 := PriceLevel(150, 1)],
         map[101 := BID_101, 102 := BID_102, 201 := ASK_201])
  }

  /** The four resting orders the other walkthroughs start from. */
  function Opening(): Book
  {
    Book(TwoBids().bids, Empty()[1500500 := PriceLevel(150, 1)][1500400 := PriceLevel(250, 1)],
         map[101 := BID_101, 102 := BID_102, 201 := ASK_201, 202 := ASK_202])
  }

  function JoinedBid(): Book
  {
    Book(Opening().bids[1500100 := PriceLevel(250, 2)], Opening().asks,
         Opening().orders[103 := BookOrder(1500100, 50, Buy)])
  }

  lemma AddsStepByStep()
    ensures Add(Book(Empty(), Empty(), map[]), 101, BID_101) == OneBid()
    ensures Add(OneBid(), 102, BID_102) == TwoBids()
    ensures Add(TwoBids(), 201, ASK_201) == TwoBidsOneAsk()
    ensures Add(TwoBidsOneAsk(), 202, ASK_202) == Opening()
    ensures Add(Opening(), 103, BookOrder(1500100, 50, Buy)) == JoinedBid()
  {
  }

  lemma TopAfterFirstBid()
    ensures Top(OneBid()) == TopOfBook(1500000, 100, N - 1, 0)
  {
    BestBidAt(OneBid().bids, 1500000);
  }

  lemma TopAfterHigherBid()
    ensures Top(TwoBids()) == TopOfBook(1500100, 200, N - 1, 0)
  {
    BestBidAt(TwoBids().bids, 1500100);
  }

  lemma TopAfterFirstAsk()
    ensures Top(TwoBidsOneAsk()) == TopOfBook(1500100, 200, 1500500, 150)
  {
    BestBidAt(TwoBidsOneAsk().bids, 1500100);
    BestAskAt(TwoBidsOneAsk().asks, 1500500);
  }

  lemma TopAfterLowerAsk()
    ensures Top(Opening()) == TopOfBook(1500100, 200, 1500400, 250)
  {
    BestBidAt(Opening().bids, 1500100);
    BestAskAt(Opening().asks, 1500400);
  }

  lemma TopAfterJoiningBid()
    ensures Top(JoinedBid()) == TopOfBook(1500100, 250, 1500400, 250)
  {
    BestBidAt(JoinedBid().bids, 1500100);
    BestAskAt(JoinedBid().asks, 1500400);
  }

  // ------------------------------------- second walkthrough: executes, delete

  function PartlyExecuted(): Book
  {
    Book(Opening().bids[1500100 := PriceLevel(150, 1)], Opening().asks,
         Opening().orders[102 := BookOrder(1500100, 150, Buy)])
  }

  function AskDeleted(): Book
  {
    Book(PartlyExecuted().bids, Opening().asks[1500400 := EMPTY_LEVEL],
         map[101 := BID_101, 102 := BookOrder(1500100, 150, Buy), 201 := ASK_201])
  }

  function FullyExecuted(): Book
  {
    Book(PartlyExecuted().bids[1500100 := EMPTY_LEVEL], AskDeleted().asks,
         map[101 := BID_101, 201 := ASK_201])
  }

  lemma ExecutesStepByStep()
    ensures Take(Opening(), 102, 50) == PartlyExecuted()
    ensures Delete(PartlyExecuted(), 202) == AskDeleted()
    ensures Take(AskDeleted(), 102, 150) == FullyExecuted()
  {
    assert PartlyExecuted().orders - {202} == AskDeleted().orders;
    assert AskDeleted().orders - {102} == FullyExecuted().orders;
  }

  lemma TopAfterPartialExecution()
    ensures Top(PartlyExecuted()) == TopOfBook(1500100, 150, 1500400, 250)
  {
    BestBidAt(PartlyExecuted().bids, 1500100);
    BestAskAt(PartlyExecuted().asks, 1500400);
  }

  /** Deleting the best ask makes the ask fall back to the next level. */
  lemma TopAfterDeletingBestAsk()
    ensures Top(AskDeleted()) == TopOfBook(1500100, 150, 1500500, 150)
  {
    BestBidAt(AskDeleted().bids, 1500100);
    BestAskAt(AskDeleted().asks, 1500500);
  }

  /** Executing the rest of the best bid makes the bid fall back to the next level. */
  lemma TopAfterFullExecution()
    ensures Top(FullyExecuted()) == TopOfBook(1500000, 100, 1500500, 150)
  {
    BestBidAt(FullyExecuted().bids, 1500000);
    BestAskAt(FullyExecuted().asks, 1500500);
  }

  // -------------------------------------- third walkthrough: cancel, replace

  function PartlyCancelled(): Book
  {
    Book(Opening().bids[1500000 := PriceLevel(70, 1)], Opening().asks,
         Opening().orders[101 := BookOrder(1500000, 70, Buy)])
  }

  function Replaced(): Book
  {
    Book(PartlyCancelled().bids, Opening().asks[1500400 := EMPTY_LEVEL][1500300 := PriceLevel(300, 1)],
         map[101 := BookOrder(1500000, 70, Buy), 102 := BID_102, 201 := ASK_201, 301 := BookOrder(1500300, 300, Sell)])
  }

  lemma AmendsStepByStep()
    ensures Take(Opening(), 101, CancelAmount(30, 100)) == PartlyCancelled()
    ensures Replace(PartlyCancelled(), 202, 301, 300, 1500300) == Replaced()
  {
    assert (PartlyCancelled().orders - {202})[301 := BookOrder(1500300, 300, Sell)] == Replaced().orders;
  }

  /** A partial cancel away from the best bid leaves the top as it was. */
  lemma TopAfterPartialCancel()
    ensures Top(PartlyCancelled()) == TopOfBook(1500100, 200, 1500400, 250)
  {
    BestBidAt(PartlyCancelled().bids, 1500100);
    BestAskAt(PartlyCancelled().asks, 1500400);
  }

  /** Replacing the best ask at a lower price makes the new order the ask. */
  lemma TopAfterReplace()
    ensures Top(Replaced()) == TopOfBook(1500100, 200, 1500300, 300)
  {
    BestBidAt(Replaced().bids, 1500100);
    BestAskAt(Replaced().asks, 1500300);
  }

  // ----------------------------------------------------- on an OrderBook

  /** An add for "MSFT    " with the header fields left at zero. */
  function AddMsg(ref: u64, side: char8, shares: u32, price: u32): ItchMessages.AddOrder
  {
    ItchMessages.AddOrder(0, 0, 0, ref, side, shares, "MSFT    ", price)
  }

  /**
   * The opening of the first walkthrough on an `OrderBook`: the padded
   * symbols match, both adds are accepted, and the tops read back are those
   * of the states above.
   */
  method FirstBidsScenario() returns (tops: seq<TopOfBook>)
    ensures tops == [TopOfBook(1500000, 100, N - 1, 0), TopOfBook(1500100, 200, N - 1, 0)]
  {
    var book := new OrderBook(N, 1, "MSFT    ");
    PaddedSymbolsMatch();
    AddsStepByStep();
    book.AddOrder(AddMsg(101, 'B', 100, 1500000));
    var t1 := book.GetTopOfBook();
    TopAfterFirstBid();
    book.AddOrder(AddMsg(102, 'B', 200, 1500100));
    var t2 := book.GetTopOfBook();
    TopAfterHigherBid();
    tops := [t1, t2];
  }
}
