/**
 * The shop side of the application: a per-session cart of product
 * quantities bounded by stock, and order placement that turns the session's
 * cart into order lines and takes them out of stock.
 */
module OrderViews {
  import opened Wrappers
  import opened Seqs

  type SessionKey = string
  type ProductId = nat
  type UserId = nat

  /**
   * A cart line is named by its session and its product: adding to the cart
   * reuses the line of that pair, so there is at most one per pair.
   */
  datatype CartKey = CartKey(session: SessionKey, product: ProductId)

  /** An order belongs to the signed-in caller, or to nobody. */
  datatype Order = Order(pk: nat, user: Option<UserId>)

  datatype OrderLine = OrderLine(order: nat, product: ProductId, qty: int)

  /** The quantity added when the add-to-cart form gives none. */
  const DefaultQty := 1

  /** Every cart line names a stocked product and asks for no more than its amount. */
  ghost predicate WithinStock(stock: map<ProductId, int>, cart: map<CartKey, int>) {
    forall k :: k in cart ==> k.product in stock && cart[k] <= stock[k.product]
  }

  /** Cart lines other than `k` are the same in both carts. */
  ghost predicate OthersUnchanged(cart: map<CartKey, int>, cart': map<CartKey, int>, k: CartKey) {
    forall k' :: k' != k ==> (k' in cart <==> k' in cart') && (k' in cart ==> cart[k'] == cart'[k'])
  }

  // ---------------------------------------------------------------- the cart

  /**
   * `CartAddView.form_valid` for a stocked product `p`: the session's line
   * for `p` grows by `qty`, or is created with `qty`, only when the result
   * fits the product's amount; otherwise the cart stays as it was.
   */
  function Added(stock: map<ProductId, int>, cart: map<CartKey, int>, s: SessionKey, p: ProductId, qty: int): (r: map<CartKey, int>)
    requires p in stock
    ensures OthersUnchanged(cart, r, CartKey(s, p))
    ensures r == cart || (CartKey(s, p) in r && r[CartKey(s, p)] <= stock[p])
    ensures WithinStock(stock, cart) ==> WithinStock(stock, r)
  {
    var k := CartKey(s, p);
    if k in cart then
      var total := cart[k] + qty;
      if total <= stock[p] then cart[k := total] else cart
    else if qty <= stock[p] then cart[k := qty]
    else cart
  }

  /** A first add creates a line of `qty` exactly when the stock covers it. */
  lemma AddNewLine(stock: map<ProductId, int>, cart: map<CartKey, int>, s: SessionKey, p: ProductId, qty: int)
    requires p in stock && CartKey(s, p) !in cart
    ensures CartKey(s, p) in Added(stock, cart, s, p, qty) <==> qty <= stock[p]
    ensures qty <= stock[p] ==> Added(stock, cart, s, p, qty)[CartKey(s, p)] == qty
  {
  }

  /** A repeated add stores `old + qty` when that fits the stock, and keeps `old` otherwise. */
  lemma AddToExistingLine(stock: map<ProductId, int>, cart: map<CartKey, int>, s: SessionKey, p: ProductId, qty: int)
    requires p in stock && CartKey(s, p) in cart
    ensures var old_ := cart[CartKey(s, p)];
            Added(stock, cart, s, p, qty)[CartKey(s, p)] == if old_ + qty <= stock[p] then old_ + qty else old_
  {
  }

  /** With stock 5, adding 3 twice leaves 3; with stock 10 it leaves 6. */
  lemma RepeatedAddExamples()
    ensures Added(map[7 := 5], Added(map[7 := 5], map[], "s", 7, 3), "s", 7, 3)[CartKey("s", 7)] == 3
    ensures Added(map[7 := 10], Added(map[7 := 10], map[], "s", 7, 3), "s", 7, 3)[CartKey("s", 7)] == 6
  {
  }

  /**
   * `CartDeleteOneView.delete`: the line loses one unit, and is deleted
   * when that leaves less than one.
   */
  function RemovedOne(cart: map<CartKey, int>, k: CartKey): (r: map<CartKey, int>)
    requires k in cart
    ensures OthersUnchanged(cart, r, k)
    ensures k in r <==> cart[k] - 1 >= 1
    ensures k in r ==> r[k] == cart[k] - 1
  {
    var qty := cart[k] - 1;
    if qty < 1 then cart - {k} else cart[k := qty]
  }

  /** With quantity 1 the line goes; with quantity 2 it stays at 1. */
  lemma RemoveOneExamples(cart: map<CartKey, int>, k: CartKey)
    ensures k !in RemovedOne(cart[k := 1], k)
    ensures RemovedOne(cart[k := 2], k)[k] == 1
  {
  }

  /** `CartDeleteView`: the line is deleted whatever its quantity. */
  function RemovedLine(cart: map<CartKey, int>, k: CartKey): (r: map<CartKey, int>)
    ensures k !in r
    ensures OthersUnchanged(cart, r, k)
  {
    cart - {k}
  }

  /** Removing never breaks the stock bound. */
  lemma RemovalsKeepWithinStock(stock: map<ProductId, int>, cart: map<CartKey, int>, k: CartKey)
    requires WithinStock(stock, cart)
    ensures WithinStock(stock, RemovedLine(cart, k))
    ensures k in cart ==> WithinStock(stock, RemovedOne(cart, k))
  {
  }

  /** The cart page's filter: the lines of one session. */
  function SessionCart(cart: map<CartKey, int>, s: SessionKey): (r: map<CartKey, int>)
    ensures forall k :: k in r <==> k in cart && k.session == s
    ensures forall k :: k in r ==> r[k] == cart[k]
  {
    map k | k in cart && k.session == s :: cart[k]
  }

  // --------------------------------------------------------------- ordering

  /** The products in the session's cart. */
  function SessionProducts(cart: map<CartKey, int>, s: SessionKey): set<ProductId> {
    set k | k in cart && k.session == s :: k.product
  }

  /** The session's line for `p` exists and the product's amount covers it. */
  predicate Covers(stock: map<ProductId, int>, cart: map<CartKey, int>, s: SessionKey, p: ProductId) {
    CartKey(s, p) in cart && p in stock && cart[CartKey(s, p)] <= stock[p]
  }

  function CoveredProducts(stock: map<ProductId, int>, cart: map<CartKey, int>, s: SessionKey): set<ProductId> {
    set p | p in SessionProducts(cart, s) && Covers(stock, cart, s, p)
  }

  /** The stock once the lines of the products in `done` have been settled. */
  ghost function Settle(stock: map<ProductId, int>, cart: map<CartKey, int>, s: SessionKey, done: set<ProductId>): map<ProductId, int> {
    map p | p in stock :: if p in done && Covers(stock, cart, s, p) then stock[p] - cart[CartKey(s, p)] else stock[p]
  }

  /**
   * The stock after the session orders: every covered line is taken out of
   * its product's amount, which so stays non-negative; every other product
   * keeps its amount.
   */
  ghost function StockAfterOrder(stock: map<ProductId, int>, cart: map<CartKey, int>, s: SessionKey): (r: map<ProductId, int>)
    ensures r.Keys == stock.Keys
    ensures forall p :: p in stock && Covers(stock, cart, s, p) ==> r[p] == stock[p] - cart[CartKey(s, p)] >= 0
    ensures forall p :: p in stock && !Covers(stock, cart, s, p) ==> r[p] == stock[p]
  {
    Settle(stock, cart, s, SessionProducts(cart, s))
  }

  /** The cart after the session orders: none of its lines, everybody else's untouched. */
  function CartAfterOrder(cart: map<CartKey, int>, s: SessionKey): (r: map<CartKey, int>)
    ensures SessionCart(r, s) == map[]
    ensures forall s' :: s' != s ==> SessionCart(r, s') == SessionCart(cart, s')
  {
    var r := map k | k in cart && k.session != s :: cart[k];
    assert SessionCart(r, s).Keys == {};
    r
  }

  function LineProducts(lines: seq<OrderLine>): set<ProductId> {
    set l | l in lines :: l.product
  }

  /**
   * The order lines placed for order `orderPk`: one per covered line of the
   * session, with its product and quantity, and nothing else.
   */
  ghost predicate PlacedLines(lines: seq<OrderLine>, orderPk: nat, stock: map<ProductId, int>, cart: map<CartKey, int>, s: SessionKey) {
    && (forall l :: l in lines ==> l.order == orderPk && Covers(stock, cart, s, l.product) && l.qty == cart[CartKey(s, l.product)])
    && (forall i, j :: 0 <= i < j < |lines| ==> lines[i].product != lines[j].product)
    && LineProducts(lines) == CoveredProducts(stock, cart, s)
  }

  /** Each covered cart line yields exactly one order line, and a line beyond stock yields none. */
  lemma PlacedLinesOnePerCoveredLine(lines: seq<OrderLine>, orderPk: nat, stock: map<ProductId, int>, cart: map<CartKey, int>, s: SessionKey, p: ProductId)
    requires PlacedLines(lines, orderPk, stock, cart, s)
    ensures Covers(stock, cart, s, p) ==>
              exists i :: 0 <= i < |lines| && lines[i] == OrderLine(orderPk, p, cart[CartKey(s, p)])
    ensures forall i, j :: 0 <= i < |lines| && 0 <= j < |lines| && lines[i].product == p && lines[j].product == p ==> i == j
    ensures !Covers(stock, cart, s, p) ==> forall l :: l in lines ==> l.product != p
  {
    if Covers(stock, cart, s, p) {
      assert p in SessionProducts(cart, s) by {
        assert CartKey(s, p) in cart;
      }
      assert p in LineProducts(lines);
      var l :| l in lines && l.product == p;
      var i :| 0 <= i < |lines| && lines[i] == l;
    }
  }

  /**
   * Order placement can leave another session's line beyond stock: both
   * sessions hold lines within the amount of 5, one orders 5, and the
   * other's line of 3 now exceeds the remaining 0.
   */
  lemma OrderCanBreakOtherSessionsBound()
    ensures var stock := map[1 := 5];
            var cart := map[CartKey("a", 1) := 3, CartKey("b", 1) := 5];
            WithinStock(stock, cart)
            && !WithinStock(StockAfterOrder(stock, cart, "b"), CartAfterOrder(cart, "b"))
  {
    var stock := map[1 := 5];
    var cart := map[CartKey("a", 1) := 3, CartKey("b", 1) := 5];
    assert Covers(stock, cart, "b", 1);
    var after := CartAfterOrder(cart, "b");
    assert CartKey("a", 1) in SessionCart(cart, "a");
    assert CartKey("a", 1) in after;
  }

  /** `WatchOrdersView.get_queryset`: the orders of the signed-in user. */
  function OrdersOf(orders: seq<Order>, user: UserId): (r: seq<Order>)
    ensures forall o :: o in r <==> o in orders && o.user == Some(user)
    ensures IsSubsequence(r, orders)
  {
    Filter(orders, (o: Order) => o.user == Some(user))
  }

  /** Settling one more product changes at most that product's amount. */
  lemma SettleStep(stock: map<ProductId, int>, cart: map<CartKey, int>, s: SessionKey, done: set<ProductId>, p: ProductId)
    requires p !in done && p in stock && CartKey(s, p) in cart
    ensures Settle(stock, cart, s, done)[p] == stock[p]
    ensures p in CoveredProducts(stock, cart, s) <==> Covers(stock, cart, s, p)
    ensures Settle(stock, cart, s, done + {p}) ==
              if Covers(stock, cart, s, p) then Settle(stock, cart, s, done)[p := stock[p] - cart[CartKey(s, p)]]
              else Settle(stock, cart, s, done)
  {
    assert p in SessionProducts(cart, s);
  }

  /** The order lines placed once the products in `done` have been settled. */
  ghost predicate LinesSoFar(lines: seq<OrderLine>, orderPk: nat, stock: map<ProductId, int>, cart: map<CartKey, int>, s: SessionKey, done: set<ProductId>) {
    && (forall l :: l in lines ==> l.order == orderPk && Covers(stock, cart, s, l.product) && l.qty == cart[CartKey(s, l.product)])
    && (forall i, j :: 0 <= i < j < |lines| ==> lines[i].product != lines[j].product)
    && (forall i :: 0 <= i < |lines| ==> lines[i].product in done)
    && LineProducts(lines) == CoveredProducts(stock, cart, s) * done
  }

  /** A product the stock does not cover adds no line. */
  lemma LinesSoFarSkip(lines: seq<OrderLine>, orderPk: nat, stock: map<ProductId, int>, cart: map<CartKey, int>, s: SessionKey, done: set<ProductId>, p: ProductId)
    requires LinesSoFar(lines, orderPk, stock, cart, s, done)
    requires !Covers(stock, cart, s, p)
    ensures LinesSoFar(lines, orderPk, stock, cart, s, done + {p})
  {
  }

  /** A covered product not yet settled adds its one line. */
  lemma LinesSoFarTake(lines: seq<OrderLine>, orderPk: nat, stock: map<ProductId, int>, cart: map<CartKey, int>, s: SessionKey, done: set<ProductId>, p: ProductId)
    requires LinesSoFar(lines, orderPk, stock, cart, s, done)
    requires p !in done && Covers(stock, cart, s, p)
    ensures LinesSoFar(lines + [OrderLine(orderPk, p, cart[CartKey(s, p)])], orderPk, stock, cart, s, done + {p})
  {
    var line := OrderLine(orderPk, p, cart[CartKey(s, p)]);
    assert p in CoveredProducts(stock, cart, s) by {
      assert p in SessionProducts(cart, s);
    }
    assert LineProducts(lines + [line]) == LineProducts(lines) + {p} by {
      assert forall l :: l in lines + [line] <==> l in lines || l == line;
    }
  }

  /** Once every product of the session is settled, the lines are the placed lines. */
  lemma LinesSoFarComplete(lines: seq<OrderLine>, orderPk: nat, stock: map<ProductId, int>, cart: map<CartKey, int>, s: SessionKey)
    requires LinesSoFar(lines, orderPk, stock, cart, s, SessionProducts(cart, s))
    ensures PlacedLines(lines, orderPk, stock, cart, s)
  {
    assert CoveredProducts(stock, cart, s) <= SessionProducts(cart, s);
  }

  /**
   * The loop of order placement over the session's cart lines, in whatever
   * order the cart query yields them: a line the product's current amount
   * covers is taken out of that amount and becomes an order line; any other
   * line is skipped. Returns the new amounts and the order lines.
   */
  method SettleCart(stock: map<ProductId, int>, cart: map<CartKey, int>, s: SessionKey, orderPk: nat)
    returns (amounts: map<ProductId, int>, lines: seq<OrderLine>)
    requires forall k :: k in cart ==> k.product in stock
    ensures amounts == StockAfterOrder(stock, cart, s)
    ensures PlacedLines(lines, orderPk, stock, cart, s)
  {
    amounts := stock;
    lines := [];
    var todo := SessionProducts(cart, s);
    ghost var done: set<ProductId> := {};
    while todo != {}
      invariant todo !! done && todo + done == SessionProducts(cart, s)
      invariant amounts == Settle(stock, cart, s, done)
      invariant LinesSoFar(lines, orderPk, stock, cart, s, done)
      decreases todo
    {
      var p :| p in todo;
      var item := CartKey(s, p);
      assert item in cart;
      var qty := cart[item];
      SettleStep(stock, cart, s, done, p);
      if amounts[p] >= qty {
        amounts := amounts[p := amounts[p] - qty];
        LinesSoFarTake(lines, orderPk, stock, cart, s, done, p);
        lines := lines + [OrderLine(orderPk, p, qty)];
      } else {
        LinesSoFarSkip(lines, orderPk, stock, cart, s, done, p);
      }
      todo := todo - {p};
      done := done + {p};
    }
    LinesSoFarComplete(lines, orderPk, stock, cart, s);
  }

  // ------------------------------------------------------------------ store

  /** Product amounts, cart lines, orders and order lines as the views change them. */
  class Shop {
    var stock: map<ProductId, int>
    var cart: map<CartKey, int>
    var orders: seq<Order>
    var orderLines: seq<OrderLine>

    ghost predicate Valid()
      reads this
    {
      && (forall k :: k in cart ==> k.product in stock)
      && (forall i :: 0 <= i < |orders| ==> orders[i].pk == i)
    }

    constructor (products: map<ProductId, int>)
      ensures Valid()
      ensures stock == products && cart == map[] && orders == [] && orderLines == []
    {
      stock := products;
      cart := map[];
      orders := [];
      orderLines := [];
    }

    /**
     * `CartAddView`: an unknown product is a not-found response; otherwise
     * the quantity (1 when the form gives none) is added to the session's
     * line when the product's amount allows it.
     */
    method Add(s: SessionKey, p: ProductId, qty: Option<int>) returns (found: bool)
      requires Valid()
      modifies this
      ensures Valid()
      ensures found <==> p in old(stock)
      ensures cart == if found then Added(old(stock), old(cart), s, p, qty.GetOr(DefaultQty)) else old(cart)
      ensures stock == old(stock) && orders == old(orders) && orderLines == old(orderLines)
    {
      if p !in stock {
        return false;
      }
      var n := qty.GetOr(DefaultQty);
      var k := CartKey(s, p);
      if k in cart {
        var total := cart[k] + n;
        if total <= stock[p] {
          cart := cart[k := total];
        }
      } else if n <= stock[p] {
        cart := cart[k := n];
      }
      return true;
    }

    /** `CartDeleteView`: the line is deleted; a line that does not exist is a not-found response. */
    method DeleteLine(k: CartKey) returns (found: bool)
      requires Valid()
      modifies this
      ensures Valid()
      ensures found <==> k in old(cart)
      ensures cart == RemovedLine(old(cart), k)
      ensures stock == old(stock) && orders == old(orders) && orderLines == old(orderLines)
    {
      found := k in cart;
      if found {
        cart := cart - {k};
      }
    }

    /** `CartDeleteOneView`: one unit less, and the line goes when under one. */
    method DeleteOne(k: CartKey) returns (found: bool)
      requires Valid()
      modifies this
      ensures Valid()
      ensures found <==> k in old(cart)
      ensures cart == if found then RemovedOne(old(cart), k) else old(cart)
      ensures stock == old(stock) && orders == old(orders) && orderLines == old(orderLines)
    {
      if k !in cart {
        return false;
      }
      var qty := cart[k] - 1;
      if qty < 1 {
        cart := cart - {k};
      } else {
        cart := cart[k := qty];
      }
      return true;
    }

    /**
     * `OrderCreateView`: when the order form is invalid nothing changes.
     * Otherwise an order for the caller is stored; each of the session's
     * cart lines that the product's amount covers becomes an order line and
     * is taken out of stock, the others are dropped; then the session's
     * whole cart is cleared.
     */
    method PlaceOrder(s: SessionKey, caller: Option<UserId>, formValid: bool) returns (placed: Option<Order>)
      requires Valid()
      modifies this
      ensures Valid()
      ensures !formValid ==> placed == None && stock == old(stock) && cart == old(cart)
                             && orders == old(orders) && orderLines == old(orderLines)
      ensures formValid ==> placed == Some(Order(|old(orders)|, caller)) && orders == old(orders) + [placed.value]
      ensures formValid ==> stock == StockAfterOrder(old(stock), old(cart), s)
      ensures formValid ==> cart == CartAfterOrder(old(cart), s)
      ensures formValid ==> |orderLines| >= |old(orderLines)|
                            && orderLines[..|old(orderLines)|] == old(orderLines)
                            && PlacedLines(orderLines[|old(orderLines)|..], |old(orders)|, old(stock), old(cart), s)
    {
      if !formValid {
        return None;
      }
      var order := Order(|orders|, caller);
      orders := orders + [order];

      var amounts, lines := SettleCart(stock, cart, s, order.pk);
      orderLines := orderLines + lines;
      assert orderLines[|old(orderLines)|..] == lines;
      stock := amounts;
      cart := map k | k in cart && k.session != s :: cart[k];
      placed := Some(order);
    }
  }
}
