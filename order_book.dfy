/**
 * The order book of one symbol: a dense price ladder per side, the map of
 * resting orders, and the published top of book.
 *
 * Each ITCH handler is a method proved to perform the transition of the same
 * name in `BookState`, and to republish the top of book from the ladders
 * afterwards. The ladder length, `MAX_PRICE_LEVELS` in the source (2000 *
 * 10000), is a constructor parameter here. The seqlock that guards the
 * published top becomes the plain field `published`.
 */
module LimitOrderBook {
  import opened FixedWidth
  import opened Trimming
  import opened CommonTypes
  import opened ItchWire
  import opened ItchMessages
  import opened BookState

  /** The source's MAX_PRICE_LEVELS. */
  const MAX_PRICE_LEVELS: nat := 2000 * 10000

  /** The Buy/Sell indicator: 'B' is a buy, and every other byte, 'S' or not, a sell. */
  function SideOf(indicator: char8): (side: Side)
    ensures side == Buy <==> indicator == 'B'
  {
    if indicator == 'B' then Buy else Sell
  }

  /**
   * The symbol the book keeps: trailing spaces dropped, except that a symbol
   * with no other character (where find_last_not_of finds nothing) is kept as given.
   */
  function BookSymbol(symbol: seq<char8>): (r: seq<char8>)
    ensures |r| <= |symbol| && r == symbol[..|r|]
    ensures forall i :: |r| <= i < |symbol| ==> symbol[i] == ' '
    ensures r == symbol || (|r| > 0 && r[|r| - 1] != ' ')
  {
    var t := StripTrailing(symbol, {' '});
    if |t| == 0 then symbol else t
  }

  /**
   * A book created with a non-empty all-space symbol keeps it unchanged, and
   * no message symbol ever compares equal to it: such a book ignores every add.
   */
  lemma BlankSymbolMatchesNothing(symbol: seq<char8>, text: Text8)
    requires |symbol| > 0 && forall i :: 0 <= i < |symbol| ==> symbol[i] == ' '
    ensures BookSymbol(symbol) == symbol
    ensures SymbolView(text) != BookSymbol(symbol)
  {
  }

  /** Trailing padding is dropped both from the book's symbol and from the message's. */
  lemma PaddedSymbolsMatch()
    ensures BookSymbol("MSFT    ") == "MSFT"
    ensures SymbolView("MSFT    ") == "MSFT"
  {
    StripTrailingUnique("MSFT    ", {' '}, 4);
  }

  class OrderBook {
    const maxPriceLevels: nat
    const bids: array<PriceLevel>
    const asks: array<PriceLevel>
    var orders: map<u64, BookOrder>
    var bestBidPrice: int
    var bestAskPrice: int
    /** The top of book readers see. */
    var published: TopOfBook
    const stockLocate: u16
    const symbol: seq<char8>

    /** The ladders and orders as a value. */
    ghost function State(): Book
      reads this, bids, asks
    {
      Book(bids[..], asks[..], orders)
    }

    /** Two distinct ladders of `maxPriceLevels` levels, and every order on one of them. */
    ghost predicate Shape()
      reads this
    {
      && bids.Length == maxPriceLevels && asks.Length == maxPriceLevels && bids != asks
      && 0 < maxPriceLevels <= 0x8000_0000_0000_0000
      && forall r :: r in orders ==> orders[r].price < maxPriceLevels
    }

    /** Between handlers the best prices and the published top are current. */
    ghost predicate Valid()
      reads this, bids, asks
    {
      && Shape()
      && bestBidPrice == BestBid(bids[..])
      && bestAskPrice == BestAsk(asks[..])
      && published == TopOf(bids[..], asks[..])
    }

    constructor(maxPriceLevels: nat, stockLocate: u16, symbol: seq<char8>)
      requires 0 < maxPriceLevels <= 0x8000_0000_0000_0000
      ensures Valid() && fresh(bids) && fresh(asks)
      ensures this.maxPriceLevels == maxPriceLevels && this.stockLocate == stockLocate
      ensures this.symbol == BookSymbol(symbol)
      ensures State() == Book(seq(maxPriceLevels, _ => EMPTY_LEVEL), seq(maxPriceLevels, _ => EMPTY_LEVEL), map[])
      ensures published == TopOfBook(0, 0, maxPriceLevels - 1, 0)
    {
      this.maxPriceLevels := maxPriceLevels;
      this.stockLocate := stockLocate;
      this.symbol := BookSymbol(symbol);
      bids := new PriceLevel[maxPriceLevels](_ => EMPTY_LEVEL);
      asks := new PriceLevel[maxPriceLevels](_ => EMPTY_LEVEL);
      orders := map[];
      bestBidPrice := 0;
      bestAskPrice := maxPriceLevels - 1;
      published := TopOfBook(0, 0, 0, 0);
      new;
      UpdateTopOfBook();
      assert !HasShares(bids[..]) && !HasShares(asks[..]);
      TopOfBookIsBest(bids[..], asks[..]);
    }

    /** get_top_of_book: the top of book of the current ladders. */
    method GetTopOfBook() returns (t: TopOfBook)
      requires Valid()
      ensures t == TopOf(bids[..], asks[..])
    {
      t := published;
    }

    /**
     * update_top_of_book: scan the bids upwards keeping the last level with
     * shares, scan the asks upwards stopping at the first, and publish both.
     */
    method UpdateTopOfBook()
      requires Shape()
      modifies this
      ensures Valid()
      ensures orders == old(orders)
    {
      var newBestBid := 0;
      for p := 0 to maxPriceLevels
        invariant newBestBid == BestBid(bids[..p])
      {
        if bids[p].quantity > 0 {
          newBestBid := p;
        }
        assert bids[..p + 1][..p] == bids[..p];
      }
      assert bids[..maxPriceLevels] == bids[..];
      bestBidPrice := newBestBid;

      var newBestAsk := maxPriceLevels - 1;
      for p := 0 to maxPriceLevels
        invariant newBestAsk == maxPriceLevels - 1
        invariant forall q :: 0 <= q < p ==> asks[q].quantity == 0
      {
        if asks[p].quantity > 0 {
          newBestAsk := p;
          BestAskAt(asks[..], p);
          break;
        }
      }
      assert newBestAsk == BestAsk(asks[..]);
      bestAskPrice := newBestAsk;

      published := TopOfBook(bestBidPrice, bids[bestBidPrice].quantity, bestAskPrice, asks[bestAskPrice].quantity);
    }

    /**
     * add_order: ignored unless the message's symbol is the book's and its
     * price is on the ladder; otherwise the order is stored under its
     * reference (replacing any entry there) and joins its level.
     */
    method AddOrder(msg: ItchMessages.AddOrder)
      requires Valid()
      modifies this, bids, asks
      ensures Valid()
      ensures var order := BookOrder(msg.price, msg.shares, SideOf(msg.buySellIndicator));
        if SymbolView(msg.symbol) == symbol && msg.price < maxPriceLevels
        then State() == Add(old(State()), msg.orderReference, order)
        else unchanged(this, bids, asks)
      ensures old(Consistent(State())) && msg.orderReference !in old(orders) ==> Consistent(State())
    {
      ghost var before := State();
      var view := ViewTrimmed(msg.symbol);
      if view != symbol {
        return;
      }
      var price: nat := msg.price;
      if price >= maxPriceLevels {
        return;
      }
      var side := SideOf(msg.buySellIndicator);
      PlaceOrder(msg.orderReference, BookOrder(price, msg.shares, side));
      UpdateTopOfBook();
      if Consistent(before) && msg.orderReference !in before.orders {
        AddKeepsConsistent(before, msg.orderReference, BookOrder(price, msg.shares, side));
      }
    }

    /**
     * The second half shared by add_order and replace_order: store the order
     * under `ref` and add it to its level (the best-price shortcut is
     * superseded by the rescan that follows).
     */
    method PlaceOrder(ref: u64, order: BookOrder)
      requires Shape() && order.price < maxPriceLevels
      modifies this, bids, asks
      ensures Shape()
      ensures State() == Add(old(State()), ref, order)
    {
      var price := order.price;
      orders := orders[ref := order];
      if order.side == Buy {
        bids[price] := bids[price].(quantity := Add32(bids[price].quantity, order.shares));
        bids[price] := bids[price].(orderCount := Add32(bids[price].orderCount, 1));
        if price > bestBidPrice {
          bestBidPrice := price;
        }
      } else {
        asks[price] := asks[price].(quantity := Add32(asks[price].quantity, order.shares));
        asks[price] := asks[price].(orderCount := Add32(asks[price].orderCount, 1));
        if price < bestAskPrice {
          bestAskPrice := price;
        }
      }
    }

    /**
     * The body shared by both execute handlers and by cancel once it has
     * clamped: `amount` leaves the order's level and the order (wrapping), and
     * an order left with no shares is removed and uncounted.
     */
    method TakeShares(ref: u64, amount: u32)
      requires Valid() && ref in orders
      modifies this, bids, asks
      ensures Valid()
      ensures State() == Take(old(State()), ref, amount)
    {
      var order := orders[ref];
      var price := order.price;
      if order.side == Buy {
        bids[price] := bids[price].(quantity := Sub32(bids[price].quantity, amount));
      } else {
        asks[price] := asks[price].(quantity := Sub32(asks[price].quantity, amount));
      }
      order := order.(shares := Sub32(order.shares, amount));
      orders := orders[ref := order];
      if order.shares == 0 {
        if order.side == Buy {
          bids[price] := bids[price].(orderCount := Sub32(bids[price].orderCount, 1));
        } else {
          asks[price] := asks[price].(orderCount := Sub32(asks[price].orderCount, 1));
        }
        orders := orders - {ref};
      }
      UpdateTopOfBook();
    }

    /**
     * execute_order: an unknown reference changes nothing; otherwise the
     * executed shares leave the order at its recorded price, without clamping.
     */
    method ExecuteOrder(msg: OrderExecuted)
      requires Valid()
      modifies this, bids, asks
      ensures Valid()
      ensures msg.orderReference in old(orders) ==> State() == Take(old(State()), msg.orderReference, msg.executedShares)
      ensures msg.orderReference !in old(orders) ==> unchanged(this, bids, asks)
      ensures (old(Consistent(State())) && msg.orderReference in old(orders)
        && msg.executedShares <= old(orders)[msg.orderReference].shares) ==> Consistent(State())
    {
      if msg.orderReference !in orders {
        return;
      }
      ghost var before := State();
      TakeShares(msg.orderReference, msg.executedShares);
      if Consistent(before) && msg.executedShares <= before.orders[msg.orderReference].shares {
        TakeKeepsConsistent(before, msg.orderReference, msg.executedShares);
      }
    }

    /**
     * execute_order_with_price: as execute_order; the execution price in the
     * message is not used, the order's recorded level is.
     */
    method ExecuteOrderWithPrice(msg: OrderExecutedWithPrice)
      requires Valid()
      modifies this, bids, asks
      ensures Valid()
      ensures msg.orderReference in old(orders) ==> State() == Take(old(State()), msg.orderReference, msg.executedShares)
      ensures msg.orderReference !in old(orders) ==> unchanged(this, bids, asks)
      ensures (old(Consistent(State())) && msg.orderReference in old(orders)
        && msg.executedShares <= old(orders)[msg.orderReference].shares) ==> Consistent(State())
    {
      if msg.orderReference !in orders {
        return;
      }
      ghost var before := State();
      TakeShares(msg.orderReference, msg.executedShares);
      if Consistent(before) && msg.executedShares <= before.orders[msg.orderReference].shares {
        TakeKeepsConsistent(before, msg.orderReference, msg.executedShares);
      }
    }

    /**
     * cancel_order: an unknown reference changes nothing; otherwise at most
     * the order's remaining shares are cancelled.
     */
    method CancelOrder(msg: OrderCancel)
      requires Valid()
      modifies this, bids, asks
      ensures Valid()
      ensures msg.orderReference in old(orders) ==>
        State() == Take(old(State()), msg.orderReference, CancelAmount(msg.cancelledShares, old(orders)[msg.orderReference].shares))
      ensures msg.orderReference !in old(orders) ==> unchanged(this, bids, asks)
      ensures old(Consistent(State())) ==> Consistent(State())
    {
      if msg.orderReference !in orders {
        return;
      }
      ghost var before := State();
      var cancelled := msg.cancelledShares;
      if cancelled > orders[msg.orderReference].shares {
        cancelled := orders[msg.orderReference].shares;
      }
      TakeShares(msg.orderReference, cancelled);
      if Consistent(before) {
        TakeKeepsConsistent(before, msg.orderReference, cancelled);
      }
    }

    /** Remove a known order: all its shares and one order leave its level. */
    method RemoveOrder(ref: u64)
      requires Shape() && ref in orders
      modifies this, bids, asks
      ensures Shape()
      ensures State() == Delete(old(State()), ref)
    {
      var order := orders[ref];
      var price := order.price;
      if order.side == Buy {
        bids[price] := bids[price].(quantity := Sub32(bids[price].quantity, order.shares));
        bids[price] := bids[price].(orderCount := Sub32(bids[price].orderCount, 1));
      } else {
        asks[price] := asks[price].(quantity := Sub32(asks[price].quantity, order.shares));
        asks[price] := asks[price].(orderCount := Sub32(asks[price].orderCount, 1));
      }
      orders := orders - {ref};
    }

    /** delete_order: an unknown reference changes nothing; otherwise the order leaves the book. */
    method DeleteOrder(msg: OrderDelete)
      requires Valid()
      modifies this, bids, asks
      ensures Valid()
      ensures msg.orderReference in old(orders) ==> State() == Delete(old(State()), msg.orderReference)
      ensures msg.orderReference !in old(orders) ==> unchanged(this, bids, asks)
      ensures old(Consistent(State())) ==> Consistent(State())
    {
      if msg.orderReference !in orders {
        return;
      }
      ghost var before := State();
      RemoveOrder(msg.orderReference);
      UpdateTopOfBook();
      if Consistent(before) {
        DeleteKeepsConsistent(before, msg.orderReference);
      }
    }

    /**
     * replace_order: an unknown original changes nothing; otherwise the
     * original leaves the book, and the new order rests at the new price on
     * the original's side when that price is on the ladder.
     */
    method ReplaceOrder(msg: OrderReplace)
      requires Valid()
      modifies this, bids, asks
      ensures Valid()
      ensures msg.originalOrderReference in old(orders) ==>
        State() == Replace(old(State()), msg.originalOrderReference, msg.newOrderReference, msg.shares, msg.price)
      ensures msg.originalOrderReference !in old(orders) ==> unchanged(this, bids, asks)
      ensures (old(Consistent(State()))
        && (msg.newOrderReference !in old(orders) || msg.newOrderReference == msg.originalOrderReference))
        ==> Consistent(State())
    {
      if msg.originalOrderReference !in orders {
        return;
      }
      ghost var before := State();
      var oldOrder := orders[msg.originalOrderReference];
      RemoveOrder(msg.originalOrderReference);
      var newPrice: nat := msg.price;
      if newPrice >= maxPriceLevels {
        UpdateTopOfBook();
      } else {
        PlaceOrder(msg.newOrderReference, BookOrder(newPrice, msg.shares, oldOrder.side));
        UpdateTopOfBook();
      }
      if Consistent(before) && (msg.newOrderReference !in before.orders || msg.newOrderReference == msg.originalOrderReference) {
        ReplaceKeepsConsistent(before, msg.originalOrderReference, msg.newOrderReference, msg.shares, msg.price);
      }
    }
  }
}
