/**
 * The dense price ladder of one symbol's order book, as a value.
 *
 * A `Book` holds one aggregate `PriceLevel` per price on each side and the
 * map from order reference to resting order. The functions below are what the
 * order book's ITCH handlers do to that state; the class in `LimitOrderBook`
 * is proved to perform exactly these transitions. Level totals are `uint32_t`
 * in the source and wrap modulo 2^32, so the invariant tying levels to orders
 * is stated modulo 2^32 as well.
 */
module BookState {
  import opened FixedWidth
  import opened CommonTypes

  /**
   * Aggregate at one price: resting shares and number of orders. The source's
   * level also carries a `price` member that the book never reads or writes.
   */
  datatype PriceLevel = PriceLevel(quantity: u32, orderCount: u32)

  const EMPTY_LEVEL := PriceLevel(0, 0)

  /** What the book keeps about a resting order: its level, size and side. */
  datatype BookOrder = BookOrder(price: nat, shares: u32, side: Side)

  datatype Book = Book(bids: seq<PriceLevel>, asks: seq<PriceLevel>, orders: map<u64, BookOrder>)

  /** Both ladders have the same number of levels and every order rests on one of them. */
  predicate WellFormed(b: Book)
  {
    |b.bids| == |b.asks| && forall r :: r in b.orders ==> b.orders[r].price < |b.bids|
  }

  function Levels(b: Book, side: Side): seq<PriceLevel>
  {
    if side == Buy then b.bids else b.asks
  }

  function WithLevels(b: Book, side: Side, levels: seq<PriceLevel>): Book
  {
    if side == Buy then b.(bids := levels) else b.(asks := levels)
  }

  /** A new order joins the level: shares added, one more order (both wrap). */
  function Deposit(levels: seq<PriceLevel>, price: nat, shares: u32): seq<PriceLevel>
    requires price < |levels|
  {
    levels[price := PriceLevel(Add32(levels[price].quantity, shares), Add32(levels[price].orderCount, 1))]
  }

  /** Shares leave the level (wrapping); the order count drops when the order goes. */
  function Withdraw(levels: seq<PriceLevel>, price: nat, shares: u32, removed: bool): seq<PriceLevel>
    requires price < |levels|
  {
    var l := levels[price];
    levels[price := PriceLevel(Sub32(l.quantity, shares), if removed then Sub32(l.orderCount, 1) else l.orderCount)]
  }

  /** add_order once the symbol and price checks pass: the entry for `ref` is overwritten. */
  function Add(b: Book, ref: u64, o: BookOrder): (r: Book)
    requires WellFormed(b) && o.price < |b.bids|
    ensures WellFormed(r) && |r.bids| == |b.bids|
  {
    WithLevels(b, o.side, Deposit(Levels(b, o.side), o.price, o.shares)).(orders := b.orders[ref := o])
  }

  /**
   * Executions and cancels of a known order: `amount` leaves the level and the
   * order, both with `uint32_t` wrap-around, and the order goes when nothing is left.
   */
  function Take(b: Book, ref: u64, amount: u32): (r: Book)
    requires WellFormed(b) && ref in b.orders
    ensures WellFormed(r) && |r.bids| == |b.bids|
  {
    var o := b.orders[ref];
    var left := Sub32(o.shares, amount);
    WithLevels(b, o.side, Withdraw(Levels(b, o.side), o.price, amount, left == 0))
      .(orders := if left == 0 then b.orders - {ref} else b.orders[ref := o.(shares := left)])
  }

  /** delete_order of a known order: all its shares and the order itself leave. */
  function Delete(b: Book, ref: u64): (r: Book)
    requires WellFormed(b) && ref in b.orders
    ensures WellFormed(r) && |r.bids| == |b.bids|
  {
    var o := b.orders[ref];
    WithLevels(b, o.side, Withdraw(Levels(b, o.side), o.price, o.shares, true)).(orders := b.orders - {ref})
  }

  /** The cancel handler's clamp: never cancel more than the order holds. */
  function CancelAmount(requested: u32, shares: u32): (c: u32)
    ensures c <= shares && c <= requested
    ensures c == requested || c == shares
  {
    if requested > shares then shares else requested
  }

  /**
   * replace_order of a known original: the original is deleted; the new order,
   * on the original's side, is added only when its price is on the ladder.
   */
  function Replace(b: Book, original: u64, newRef: u64, shares: u32, price: nat): (r: Book)
    requires WellFormed(b) && original in b.orders
    ensures WellFormed(r) && |r.bids| == |b.bids|
  {
    var side := b.orders[original].side;
    var d := Delete(b, original);
    if price >= |b.bids| then d else Add(d, newRef, BookOrder(price, shares, side))
  }

  // ---------------------------------------------------------------------------
  // Levels agree with the orders resting on them
  // ---------------------------------------------------------------------------

  /** What one order contributes to a level: its shares, or one to the count. */
  function Weight(o: BookOrder, side: Side, price: nat, byShares: bool): nat
  {
    if o.side == side && o.price == price then (if byShares then o.shares else 1) else 0
  }

  lemma SomeKey(m: map<u64, BookOrder>)
    requires m != map[]
    ensures exists k :: k in m
  {
    if forall k :: k !in m {
      assert false;
    }
  }

  /** The total weight of the orders in `m` at one side and price. */
  ghost function Tally(m: map<u64, BookOrder>, side: Side, price: nat, byShares: bool): nat
    decreases |m|
  {
    if m == map[] then 0
    else SomeKey(m); var k :| k in m; Weight(m[k], side, price, byShares) + Tally(m - {k}, side, price, byShares)
  }

  /** The level the orders imply, with the source's 32-bit wrap-around. */
  ghost function Implied(m: map<u64, BookOrder>, side: Side, price: nat): PriceLevel
  {
    PriceLevel(Tally(m, side, price, true) % TWO_32, Tally(m, side, price, false) % TWO_32)
  }

  /** Every level holds exactly the total shares and the number of the orders at it. */
  ghost predicate Consistent(b: Book)
  {
    && WellFormed(b)
    && forall p :: 0 <= p < |b.bids| ==> b.bids[p] == Implied(b.orders, Buy, p) && b.asks[p] == Implied(b.orders, Sell, p)
  }

  /** Any order can be taken out of the sum first. */
  lemma {:induction false} TallyRemove(m: map<u64, BookOrder>, x: u64, side: Side, price: nat, byShares: bool)
    requires x in m
    ensures Tally(m, side, price, byShares) == Weight(m[x], side, price, byShares) + Tally(m - {x}, side, price, byShares)
    decreases |m|
  {
    var k :| k in m && Tally(m, side, price, byShares) == Weight(m[k], side, price, byShares) + Tally(m - {k}, side, price, byShares);
    if k != x {
      TallyRemove(m - {k}, x, side, price, byShares);
      TallyRemove(m - {x}, k, side, price, byShares);
      assert (m - {k}) - {x} == (m - {x}) - {k};
    }
  }

  /** Storing `o` under `x` swaps the old entry's weight, if any, for `o`'s. */
  lemma TallyPut(m: map<u64, BookOrder>, x: u64, o: BookOrder, side: Side, price: nat, byShares: bool)
    ensures Tally(m[x := o], side, price, byShares) + (if x in m then Weight(m[x], side, price, byShares) else 0)
         == Tally(m, side, price, byShares) + Weight(o, side, price, byShares)
  {
    TallyRemove(m[x := o], x, side, price, byShares);
    assert m[x := o] - {x} == m - {x};
    if x in m {
      TallyRemove(m, x, side, price, byShares);
    } else {
      assert m - {x} == m;
    }
  }

  lemma ModShift(v: int, q: int)
    ensures (v + q * TWO_32) % TWO_32 == v % TWO_32
  {
    var r := v % TWO_32;
    assert v == (v / TWO_32) * TWO_32 + r;
    assert v + q * TWO_32 == (v / TWO_32 + q) * TWO_32 + r;
    ModUnique(v + q * TWO_32, TWO_32, v / TWO_32 + q, r);
  }

  /** Wrapping addition on the stored total is addition on the true total. */
  lemma AddWraps(t: nat, w: u32)
    ensures Add32(t % TWO_32, w) == (t + w) % TWO_32
  {
    ModShift(t % TWO_32 + w, t / TWO_32);
  }

  /** Wrapping subtraction on the stored total is subtraction on the true total. */
  lemma SubWraps(t: nat, w: u32)
    requires w <= t
    ensures Sub32(t % TWO_32, w) == (t - w) % TWO_32
  {
    ModShift(t % TWO_32 - w, t / TWO_32);
  }

  /** A fresh order keeps one level of one side consistent. */
  lemma AddAt(b: Book, ref: u64, o: BookOrder, side: Side, p: nat)
    requires Consistent(b) && ref !in b.orders && o.price < |b.bids| && p < |b.bids|
    ensures Levels(Add(b, ref, o), side)[p] == Implied(Add(b, ref, o).orders, side, p)
  {
    var m := b.orders;
    TallyPut(m, ref, o, side, p, true);
    TallyPut(m, ref, o, side, p, false);
    if o.side == side && o.price == p {
      AddWraps(Tally(m, side, p, true), o.shares);
      AddWraps(Tally(m, side, p, false), 1);
    }
  }

  /**
   * Adding an order under a reference not already resting keeps every level
   * equal to the sum over its orders.
   */
  lemma AddKeepsConsistent(b: Book, ref: u64, o: BookOrder)
    requires Consistent(b) && ref !in b.orders && o.price < |b.bids|
    ensures Consistent(Add(b, ref, o))
  {
    var r := Add(b, ref, o);
    forall p | 0 <= p < |r.bids|
      ensures r.bids[p] == Implied(r.orders, Buy, p) && r.asks[p] == Implied(r.orders, Sell, p)
    {
      AddAt(b, ref, o, Buy, p);
      AddAt(b, ref, o, Sell, p);
    }
  }

  /** What a take does to one level: only the order's own level changes. */
  lemma TakeLevel(b: Book, ref: u64, amount: u32, side: Side, p: nat)
    requires WellFormed(b) && ref in b.orders && p < |b.bids|
    ensures var o, l := b.orders[ref], Levels(b, side)[p];
      Levels(Take(b, ref, amount), side)[p]
        == if o.side == side && o.price == p
           then PriceLevel(Sub32(l.quantity, amount),
                           if Sub32(o.shares, amount) == 0 then Sub32(l.orderCount, 1) else l.orderCount)
           else l
  {
  }

  /** Taking all of an order's shares removes its weight from its level. */
  lemma TakeAllAt(b: Book, ref: u64, amount: u32, side: Side, p: nat)
    requires Consistent(b) && ref in b.orders && amount == b.orders[ref].shares && p < |b.bids|
    ensures Levels(Take(b, ref, amount), side)[p] == Implied(b.orders - {ref}, side, p)
  {
    var m, o := b.orders, b.orders[ref];
    assert Levels(b, side)[p] == Implied(m, side, p);
    TakeLevel(b, ref, amount, side, p);
    TallyRemove(m, ref, side, p, true);
    TallyRemove(m, ref, side, p, false);
    if o.side == side && o.price == p {
      SubWraps(Tally(m, side, p, true), amount);
      SubWraps(Tally(m, side, p, false), 1);
    }
  }

  /** Taking part of an order's shares lowers its weight at its level by that part. */
  lemma TakePartAt(b: Book, ref: u64, amount: u32, side: Side, p: nat)
    requires Consistent(b) && ref in b.orders && amount < b.orders[ref].shares && p < |b.bids|
    ensures var o := b.orders[ref];
      Levels(Take(b, ref, amount), side)[p] == Implied(b.orders[ref := o.(shares := o.shares - amount)], side, p)
  {
    var m, o := b.orders, b.orders[ref];
    assert Levels(b, side)[p] == Implied(m, side, p);
    TakeLevel(b, ref, amount, side, p);
    TallyPut(m, ref, o.(shares := o.shares - amount), side, p, true);
    TallyPut(m, ref, o.(shares := o.shares - amount), side, p, false);
    if o.side == side && o.price == p {
      SubWraps(Tally(m, side, p, true), amount);
    }
  }

  /** Taking at most the order's remaining shares keeps one level of one side consistent. */
  lemma TakeAt(b: Book, ref: u64, amount: u32, side: Side, p: nat)
    requires Consistent(b) && ref in b.orders && amount <= b.orders[ref].shares && p < |b.bids|
    ensures Levels(Take(b, ref, amount), side)[p] == Implied(Take(b, ref, amount).orders, side, p)
  {
    if amount == b.orders[ref].shares {
      TakeAllAt(b, ref, amount, side, p);
    } else {
      TakePartAt(b, ref, amount, side, p);
    }
  }

  /**
   * Executing or cancelling no more than an order holds keeps every level
   * equal to the sum over its orders.
   */
  lemma TakeKeepsConsistent(b: Book, ref: u64, amount: u32)
    requires Consistent(b) && ref in b.orders && amount <= b.orders[ref].shares
    ensures Consistent(Take(b, ref, amount))
  {
    var r := Take(b, ref, amount);
    forall p | 0 <= p < |r.bids|
      ensures r.bids[p] == Implied(r.orders, Buy, p) && r.asks[p] == Implied(r.orders, Sell, p)
    {
      TakeAt(b, ref, amount, Buy, p);
      TakeAt(b, ref, amount, Sell, p);
    }
  }

  /** Deleting is taking all of the order's shares. */
  lemma DeleteIsTakeAll(b: Book, ref: u64)
    requires WellFormed(b) && ref in b.orders
    ensures Delete(b, ref) == Take(b, ref, b.orders[ref].shares)
  {
  }

  lemma DeleteKeepsConsistent(b: Book, ref: u64)
    requires Consistent(b) && ref in b.orders
    ensures Consistent(Delete(b, ref))
  {
    DeleteIsTakeAll(b, ref);
    TakeKeepsConsistent(b, ref, b.orders[ref].shares);
  }

  /**
   * Replacing keeps the levels consistent when the new reference is fresh or
   * reuses the original's.
   */
  lemma ReplaceKeepsConsistent(b: Book, original: u64, newRef: u64, shares: u32, price: nat)
    requires Consistent(b) && original in b.orders
    requires newRef !in b.orders || newRef == original
    ensures Consistent(Replace(b, original, newRef, shares, price))
  {
    DeleteKeepsConsistent(b, original);
    if price < |b.bids| {
      AddKeepsConsistent(Delete(b, original), newRef, BookOrder(price, shares, b.orders[original].side));
    }
  }

  /** The empty ladder with no orders is consistent. */
  lemma EmptyBookConsistent(n: nat)
    ensures Consistent(Book(seq(n, _ => EMPTY_LEVEL), seq(n, _ => EMPTY_LEVEL), map[]))
  {
  }

  // ---------------------------------------------------------------------------
  // What each transition does to the orders
  // ---------------------------------------------------------------------------

  /**
   * add_order stores the order under its reference, touches only its own
   * level, and leaves every other order as it was.
   */
  lemma AddOutcome(b: Book, ref: u64, o: BookOrder)
    requires WellFormed(b) && o.price < |b.bids|
    ensures var r := Add(b, ref, o);
      && r.orders.Keys == b.orders.Keys + {ref}
      && r.orders[ref] == o
      && (forall q :: q in b.orders && q != ref ==> r.orders[q] == b.orders[q])
      && Levels(r, o.side)[o.price].quantity == Add32(Levels(b, o.side)[o.price].quantity, o.shares)
      && (forall p :: 0 <= p < |b.bids| && p != o.price ==> Levels(r, o.side)[p] == Levels(b, o.side)[p])
      && Levels(r, if o.side == Buy then Sell else Buy) == Levels(b, if o.side == Buy then Sell else Buy)
  {
  }

  /**
   * An add under a reference that is already resting overwrites the stored
   * order, but the old order's shares stay on its level: the ladder then
   * counts both.
   */
  lemma AddOverwriteDoubleCounts()
    ensures var o := BookOrder(0, 100, Buy);
      var b := Book([PriceLevel(100, 1)], [EMPTY_LEVEL], map[7 := o]);
      && Consistent(b)
      && Add(b, 7, BookOrder(0, 50, Buy)).bids[0] == PriceLevel(150, 2)
      && !Consistent(Add(b, 7, BookOrder(0, 50, Buy)))
  {
    var o := BookOrder(0, 100, Buy);
    var b := Book([PriceLevel(100, 1)], [EMPTY_LEVEL], map[7 := o]);
    var o2 := BookOrder(0, 50, Buy);
    TallyRemove(b.orders, 7, Buy, 0, true);
    TallyRemove(b.orders, 7, Buy, 0, false);
    TallyRemove(b.orders, 7, Sell, 0, true);
    TallyRemove(b.orders, 7, Sell, 0, false);
    assert b.orders - {7} == map[];
    var r := Add(b, 7, o2);
    assert r.orders == map[7 := o2];
    TallyRemove(r.orders, 7, Buy, 0, true);
    assert r.orders - {7} == map[];
  }

  /**
   * An execution leaves the order with `shares - amount` in `uint32_t`
   * arithmetic and removes it exactly when that is zero, i.e. when the whole
   * remainder is executed. Executing more than remains wraps around and leaves
   * the order resting with a huge share count.
   */
  lemma TakeOutcome(b: Book, ref: u64, amount: u32)
    requires WellFormed(b) && ref in b.orders
    ensures var o := b.orders[ref]; var r := Take(b, ref, amount);
      && (ref !in r.orders <==> amount == o.shares)
      && (amount < o.shares ==> r.orders[ref] == o.(shares := o.shares - amount))
      && (amount > o.shares ==> r.orders[ref] == o.(shares := o.shares - amount + TWO_32))
      && (forall q :: q in b.orders && q != ref ==> q in r.orders && r.orders[q] == b.orders[q])
      && (forall q :: q in r.orders ==> q in b.orders)
      && Levels(r, o.side)[o.price].quantity == Sub32(Levels(b, o.side)[o.price].quantity, amount)
      && (forall p :: 0 <= p < |b.bids| && p != o.price ==> Levels(r, o.side)[p] == Levels(b, o.side)[p])
      && Levels(r, if o.side == Buy then Sell else Buy) == Levels(b, if o.side == Buy then Sell else Buy)
  {
  }

  /**
   * A cancel never wraps: it takes the smaller of the request and the
   * remainder, and removes the order exactly when the request covers it.
   */
  lemma CancelOutcome(b: Book, ref: u64, requested: u32)
    requires WellFormed(b) && ref in b.orders
    ensures var o := b.orders[ref]; var r := Take(b, ref, CancelAmount(requested, o.shares));
      && (ref !in r.orders <==> requested >= o.shares)
      && (requested < o.shares ==> r.orders[ref] == o.(shares := o.shares - requested))
  {
  }

  /**
   * Replace always removes the original. A new price on the ladder rests the
   * new order on the original's side; any other price leaves just the deletion.
   */
  lemma ReplaceOutcome(b: Book, original: u64, newRef: u64, shares: u32, price: nat)
    requires WellFormed(b) && original in b.orders
    ensures var r := Replace(b, original, newRef, shares, price);
      && (price < |b.bids| ==> newRef in r.orders && r.orders[newRef] == BookOrder(price, shares, b.orders[original].side))
      && (original in r.orders ==> original == newRef && price < |b.bids|)
      && (price >= |b.bids| ==> r == Delete(b, original) && r.orders == b.orders - {original})
  {
  }

  // ---------------------------------------------------------------------------
  // Top of book
  // ---------------------------------------------------------------------------

  /** The best bid: the highest price with resting shares, or 0 when there is none. */
  function BestBid(levels: seq<PriceLevel>): (r: nat)
    ensures |levels| > 0 ==> r < |levels|
    ensures |levels| == 0 ==> r == 0
    ensures forall q :: r < q < |levels| ==> levels[q].quantity == 0
    ensures r > 0 ==> levels[r].quantity > 0
  {
    if |levels| == 0 then 0
    else if levels[|levels| - 1].quantity > 0 then |levels| - 1
    else BestBid(levels[..|levels| - 1])
  }

  /** The first level at or after `from` with resting shares, or `|levels|`. */
  function FirstPositive(levels: seq<PriceLevel>, from: nat): (r: nat)
    requires from <= |levels|
    ensures from <= r <= |levels|
    ensures forall q :: from <= q < r ==> levels[q].quantity == 0
    ensures r < |levels| ==> levels[r].quantity > 0
    decreases |levels| - from
  {
    if from == |levels| then from
    else if levels[from].quantity > 0 then from
    else FirstPositive(levels, from + 1)
  }

  /** The best ask: the lowest price with resting shares, or the top level when there is none. */
  function BestAsk(levels: seq<PriceLevel>): (r: nat)
    requires |levels| > 0
    ensures r < |levels|
    ensures forall q :: 0 <= q < r ==> levels[q].quantity == 0
    ensures levels[r].quantity == 0 ==> r == |levels| - 1
  {
    var f := FirstPositive(levels, 0);
    if f < |levels| then f else |levels| - 1
  }

  /** What update_top_of_book publishes. */
  function TopOf(bids: seq<PriceLevel>, asks: seq<PriceLevel>): (t: TopOfBook)
    requires 0 < |bids| <= 0x8000_0000_0000_0000 && 0 < |asks| <= 0x8000_0000_0000_0000
    ensures 0 <= t.bidPrice < |bids| && t.bidQuantity == bids[t.bidPrice].quantity
    ensures 0 <= t.askPrice < |asks| && t.askQuantity == asks[t.askPrice].quantity
  {
    var bid := BestBid(bids);
    var ask := BestAsk(asks);
    TopOfBook(bid, bids[bid].quantity, ask, asks[ask].quantity)
  }

  predicate HasShares(levels: seq<PriceLevel>)
  {
    exists p :: 0 <= p < |levels| && levels[p].quantity > 0
  }

  /**
   * The published bid is the highest level with shares and its quantity, or
   * price 0 and quantity 0 when the bid side is empty; the published ask is
   * the lowest level with shares, or the top level (MAX_PRICE_LEVELS - 1) with
   * quantity 0 when the ask side is empty.
   */
  lemma TopOfBookIsBest(bids: seq<PriceLevel>, asks: seq<PriceLevel>)
    requires 0 < |bids| <= 0x8000_0000_0000_0000 && 0 < |asks| <= 0x8000_0000_0000_0000
    ensures var t := TopOf(bids, asks);
      && (HasShares(bids) ==>
            0 <= t.bidPrice < |bids| && t.bidQuantity == bids[t.bidPrice].quantity > 0
            && forall q :: t.bidPrice < q < |bids| ==> bids[q].quantity == 0)
      && (!HasShares(bids) ==> t.bidPrice == 0 && t.bidQuantity == 0)
      && (HasShares(asks) ==>
            0 <= t.askPrice < |asks| && t.askQuantity == asks[t.askPrice].quantity > 0
            && forall q :: 0 <= q < t.askPrice ==> asks[q].quantity == 0)
      && (!HasShares(asks) ==> t.askPrice == |asks| - 1 && t.askQuantity == 0)
  {
    var bid := BestBid(bids);
    if HasShares(bids) {
      var p :| 0 <= p < |bids| && bids[p].quantity > 0;
      assert bid > 0 || bids[0].quantity > 0;
    }
    if HasShares(asks) {
      var p :| 0 <= p < |asks| && asks[p].quantity > 0;
      assert FirstPositive(asks, 0) <= p;
    }
  }

  /** The published top is empty exactly when neither side has shares. */
  lemma EmptyTopIffNoShares(bids: seq<PriceLevel>, asks: seq<PriceLevel>)
    requires 0 < |bids| <= 0x8000_0000_0000_0000 && 0 < |asks| <= 0x8000_0000_0000_0000
    ensures IsEmpty(TopOf(bids, asks)) <==> !HasShares(bids) && !HasShares(asks)
  {
    TopOfBookIsBest(bids, asks);
  }

  /** A bid level with shares at `p` and none above is the best bid. */
  lemma BestBidAt(levels: seq<PriceLevel>, p: nat)
    requires p < |levels| && levels[p].quantity > 0
    requires forall q :: p < q < |levels| ==> levels[q].quantity == 0
    ensures BestBid(levels) == p
  {
  }

  /** An ask level with shares at `p` and none below is the best ask. */
  lemma BestAskAt(levels: seq<PriceLevel>, p: nat)
    requires p < |levels| && levels[p].quantity > 0
    requires forall q :: 0 <= q < p ==> levels[q].quantity == 0
    ensures BestAsk(levels) == p
  {
  }
}
