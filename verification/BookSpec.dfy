/** A limit order book as two lists of orders in price-time priority, and what adding and removing
    an order means on them (`OrderBook` in `src/matching_engine_base.rs`). */
module BookSpec {
  import opened Numbers
  import opened Options
  import opened TradeIds

  datatype Side = Buy | Sell

  datatype OrderType = Limit | Market

  datatype Order = Order(id: nat, user: nat, symbol: nat, side: Side, kind: OrderType,
                         price: nat, quantity: nat, timestamp: nat)

  datatype Trade = Trade(matchSeq: nat, tradeId: nat, buyOrderId: nat, sellOrderId: nat,
                         buyer: nat, seller: nat, price: nat, quantity: nat)

  /** Resting orders best first, the id set, the id index, and the trade counter. */
  datatype Book = Book(bids: seq<Order>, asks: seq<Order>, active: set<nat>,
                       index: map<nat, (Side, nat)>, matchSeq: nat)

  const EMPTY_BOOK: Book := Book([], [], {}, map[], 0)

  function Opposite(side: Side): Side {
    if side == Buy then Sell else Buy
  }

  function Half(b: Book, side: Side): seq<Order> {
    if side == Buy then b.bids else b.asks
  }

  function WithHalf(b: Book, side: Side, s: seq<Order>): Book {
    if side == Buy then b.(bids := s) else b.(asks := s)
  }

  /** Price `p` has strictly better priority than `q` among resting orders of `side`. */
  predicate Better(side: Side, p: nat, q: nat) {
    if side == Buy then p > q else p < q
  }

  /** A taker of `side` with price limit `limit` accepts a maker's price. */
  predicate Crosses(side: Side, limit: nat, price: nat) {
    if side == Buy then price <= limit else price >= limit
  }

  // ----- Matching -----

  datatype Fill = Fill(maker: Order, quantity: nat)

  datatype Matched = Matched(fills: seq<Fill>, rest: seq<Order>, left: nat)

  /** The simple matcher: take from the front while the taker has quantity and the price crosses. */
  function Match(side: Side, limit: nat, qty: nat, makers: seq<Order>): Matched
    decreases |makers|
  {
    if qty == 0 || makers == [] || !Crosses(side, limit, makers[0].price) then Matched([], makers, qty)
    else
      var m := makers[0];
      var n := Min(qty, m.quantity);
      if n < m.quantity then
        Matched([Fill(m, n)], [m.(quantity := m.quantity - n)] + makers[1..], qty - n)
      else
        var r := Match(side, limit, qty - n, makers[1..]);
        Matched([Fill(m, n)] + r.fills, r.rest, r.left)
  }

  function TradeOf(taker: Order, f: Fill, matchSeq: nat, tradeId: nat): Trade {
    if taker.side == Buy then
      Trade(matchSeq, tradeId, taker.id, f.maker.id, taker.user, f.maker.user, f.maker.price, f.quantity)
    else
      Trade(matchSeq, tradeId, f.maker.id, taker.id, f.maker.user, taker.user, f.maker.price, f.quantity)
  }

  /** One trade per fill, at the maker's price, numbered on from `seq0`, with fresh ids. */
  function TradesOf(taker: Order, fills: seq<Fill>, seq0: nat, lastId: nat, ts: nat): seq<Trade>
    decreases |fills|
  {
    if fills == [] then [] else
    var id := NextId(lastId, ts);
    [TradeOf(taker, fills[0], seq0 + 1, id)] + TradesOf(taker, fills[1..], seq0 + 1, id, ts)
  }

  function LastIdAfter(lastId: nat, ts: nat, n: nat): nat
    decreases n
  {
    if n == 0 then lastId else LastIdAfter(NextId(lastId, ts), ts, n - 1)
  }

  /** Makers that were filled completely. */
  function Exhausted(fills: seq<Fill>): set<nat> {
    if fills == [] then {} else
    (if fills[0].quantity == fills[0].maker.quantity then {fills[0].maker.id} else {}) + Exhausted(fills[1..])
  }

  /** Behind every order of at least the same priority, in front of the first worse one. */
  function Insert(side: Side, s: seq<Order>, o: Order): seq<Order> {
    if s == [] || Better(side, o.price, s[0].price) then [o] + s
    else [s[0]] + Insert(side, s[1..], o)
  }

  datatype AddResult = Duplicate | Added(book: Book, trades: seq<Trade>, lastId: nat)

  function MatchIn(b: Book, o: Order): Matched {
    Match(o.side, o.price, o.quantity, Half(b, Opposite(o.side)))
  }

  /** `add_order`. */
  function Add(b: Book, o: Order, lastId: nat, ts: nat): AddResult {
    if o.id in b.active then Duplicate else
    var r := MatchIn(b, o);
    Added(AfterMatch(b, o, r), TradesOf(o, r.fills, b.matchSeq, lastId, ts),
          LastIdAfter(lastId, ts, |r.fills|))
  }

  function AfterMatch(b: Book, o: Order, r: Matched): Book {
    var gone := Exhausted(r.fills);
    var b' := WithHalf(b, Opposite(o.side), r.rest)
              .(active := b.active + {o.id} - gone,
                index := b.index[o.id := (o.side, o.price)] - gone,
                matchSeq := b.matchSeq + |r.fills|);
    if r.left > 0 then WithHalf(b', o.side, Insert(o.side, Half(b, o.side), o.(quantity := r.left))) else b'
  }

  // ----- Removing -----

  /** Position of an order in its price level, or the length of the list. */
  function Find(s: seq<Order>, id: nat, price: nat): (i: nat)
    ensures i <= |s|
    ensures i < |s| ==> s[i].id == id && s[i].price == price
    ensures forall j :: 0 <= j < i ==> !(s[j].id == id && s[j].price == price)
  {
    if s == [] || (s[0].id == id && s[0].price == price) then 0 else 1 + Find(s[1..], id, price)
  }

  function RemoveAt(s: seq<Order>, i: nat): seq<Order>
    requires i < |s|
  {
    s[..i] + s[i + 1..]
  }

  datatype RemoveResult = RemoveResult(book: Book, order: Option<Order>)

  /** `remove_order`: the index entry goes even when no order rests under it any more. */
  function Remove(b: Book, id: nat): RemoveResult {
    if id !in b.index then RemoveResult(b, None) else
    var (side, price) := b.index[id];
    var b' := b.(active := b.active - {id}, index := b.index - {id});
    var i := Find(Half(b, side), id, price);
    if i == |Half(b, side)| then RemoveResult(b', None)
    else RemoveResult(WithHalf(b', side, RemoveAt(Half(b, side), i)), Some(Half(b, side)[i]))
  }

  // ----- Well-formed books -----

  ghost predicate Sorted(side: Side, s: seq<Order>) {
    forall i, j :: 0 <= i < j < |s| ==> !Better(side, s[j].price, s[i].price)
  }

  ghost predicate Resting(side: Side, s: seq<Order>) {
    forall i :: 0 <= i < |s| ==> s[i].side == side && s[i].quantity > 0
  }

  ghost predicate DistinctIds(s: seq<Order>) {
    forall i, j :: 0 <= i < j < |s| ==> s[i].id != s[j].id
  }

  /** Best bid below best ask, at every pair of levels. */
  ghost predicate Uncrossed(bids: seq<Order>, asks: seq<Order>) {
    forall i, j :: 0 <= i < |bids| && 0 <= j < |asks| ==> bids[i].price < asks[j].price
  }

  ghost predicate DisjointIds(s: seq<Order>, t: seq<Order>) {
    forall i, j :: 0 <= i < |s| && 0 <= j < |t| ==> s[i].id != t[j].id
  }

  ghost predicate Indexed(s: seq<Order>, index: map<nat, (Side, nat)>) {
    forall i :: 0 <= i < |s| ==> s[i].id in index && index[s[i].id] == (s[i].side, s[i].price)
  }

  ghost predicate GoodHalf(side: Side, s: seq<Order>, index: map<nat, (Side, nat)>) {
    Sorted(side, s) && Resting(side, s) && DistinctIds(s) && Indexed(s, index)
  }

  ghost predicate WellFormed(b: Book) {
    && GoodHalf(Buy, b.bids, b.index) && GoodHalf(Sell, b.asks, b.index)
    && DisjointIds(b.bids, b.asks)
    && Uncrossed(b.bids, b.asks)
    && b.active == b.index.Keys
  }
}
