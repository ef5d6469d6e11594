/** The back-office's tables as one object whose maps the request handlers
    change in place: registering and editing clients and products, placing
    a sale as one unit of work, and the guarded deletes. Ids are handed out
    from one counter; the database's own sequences are not modelled. */
module Ledger {
  import opened Results
  import opened Catalog

  /** Why a registration, an edit or a delete is refused. */
  datatype Refusal =
    | NotFound
    | NameRequired
    | NameAndPriceRequired
    | ClientHasOrders(orders: nat)
    | ProductInItems(items: nat)

  /** Ids are positive and below `next`; every order's client, every
      item's order and every item's product exists. */
  ghost predicate Consistent(clients: map<int, Client>, products: map<int, Product>,
                             orders: map<int, Order>, items: map<int, OrderItem>, next: int)
  {
    && 0 < next
    && (forall id :: id in clients ==> 0 < id < next)
    && (forall id :: id in products ==> 0 < id < next)
    && (forall id :: id in orders ==> 0 < id < next)
    && (forall id :: id in items ==> 0 < id < next)
    && (forall id :: id in orders ==> orders[id].client in clients)
    && (forall id :: id in items ==> items[id].order in orders && items[id].product in products)
  }

  /* ---------------- what a sale stores ---------------- */

  /** The pending state of a sale: the product and item tables as the lines
      so far left them, and the running total. */
  datatype Staging = Staging(products: map<int, Product>, items: map<int, OrderItem>, total: real)

  /** What the lines of order `orderId` do, one after the other, starting
      from the tables `p0` and `i0`: each takes its quantity from its
      product's stock, stores its item under the next id at the product's
      price, and adds price times quantity to the total. */
  function Staged(p0: map<int, Product>, i0: map<int, OrderItem>, orderId: int, lines: seq<Line>): (s: Staging)
    requires forall k :: 0 <= k < |lines| ==> lines[k].product in p0
    ensures s.products.Keys == p0.Keys
    decreases |lines|
  {
    if lines == [] then Staging(p0, i0, 0.0)
    else
      var init := lines[..|lines| - 1];
      var s := Staged(p0, i0, orderId, init);
      var l := lines[|lines| - 1];
      var item := ItemFor(orderId, s.products, l);
      Staging(Take(s.products, l), s.items[orderId + 1 + |init| := item], s.total + Amount(item))
  }

  /** One more line, in the terms the loop of `StageLines` uses. */
  lemma StagedStep(p0: map<int, Product>, i0: map<int, OrderItem>, orderId: int, lines: seq<Line>, l: Line,
                   products: map<int, Product>, items: map<int, OrderItem>, total: real)
    requires forall k :: 0 <= k < |lines| ==> lines[k].product in p0
    requires l.product in p0
    requires Staged(p0, i0, orderId, lines) == Staging(products, items, total)
    ensures Staged(p0, i0, orderId, lines + [l])
      == Staging(Take(products, l), items[orderId + 1 + |lines| := ItemFor(orderId, products, l)],
                 total + Amount(ItemFor(orderId, products, l)))
  {
    var lines' := lines + [l];
    assert lines'[..|lines'| - 1] == lines;
  }

  /** After the lines, each product is as it was except that its stock is
      down by everything the lines asked of it. */
  lemma {:induction false} StagedStock(p0: map<int, Product>, i0: map<int, OrderItem>, orderId: int, lines: seq<Line>)
    requires forall k :: 0 <= k < |lines| ==> lines[k].product in p0
    ensures forall pid :: pid in p0 ==>
      Staged(p0, i0, orderId, lines).products[pid] == p0[pid].(stock := p0[pid].stock - Requested(lines, pid))
    decreases |lines|
  {
    if lines == [] {
      forall pid | pid in p0
        ensures p0[pid] == p0[pid].(stock := p0[pid].stock - Requested(lines, pid))
      {
      }
    } else {
      StagedStock(p0, i0, orderId, lines[..|lines| - 1]);
    }
  }

  /** The items a sale stores are its receipt, under the ids that follow
      `orderId`; every earlier item is kept; and the total is the receipt's. */
  lemma {:induction false} StagedReceipt(p0: map<int, Product>, i0: map<int, OrderItem>, orderId: int, lines: seq<Line>)
    requires forall k :: 0 <= k < |lines| ==> lines[k].product in p0
    requires forall id :: id in i0 ==> id <= orderId
    ensures var s, rc := Staged(p0, i0, orderId, lines), Receipt(orderId, p0, lines);
      && (forall id :: id in s.items <==> id in i0 || orderId < id <= orderId + |lines|)
      && (forall id :: id in i0 ==> s.items[id] == i0[id])
      && (forall k :: 0 <= k < |lines| ==> s.items[orderId + 1 + k] == rc[k])
      && s.total == ItemsTotal(rc)
    decreases |lines|
  {
    if lines != [] {
      var init := lines[..|lines| - 1];
      StagedReceipt(p0, i0, orderId, init);
      StagedStock(p0, i0, orderId, init);
      var rc := Receipt(orderId, p0, lines);
      assert rc[..|init|] == Receipt(orderId, p0, init);
    }
  }

  /** Tables grown by the items `rc` of a new order `orderId`, stored under
      the ids after it, stay consistent. */
  lemma ReceiptConsistent(clients: map<int, Client>, p0: map<int, Product>, products: map<int, Product>,
                          orders: map<int, Order>, i0: map<int, OrderItem>, items: map<int, OrderItem>,
                          orderId: int, rc: seq<OrderItem>, o: Order)
    requires Consistent(clients, p0, orders, i0, orderId)
    requires products.Keys == p0.Keys && o.client in clients
    requires forall id :: id in items <==> id in i0 || orderId < id <= orderId + |rc|
    requires forall id :: id in i0 ==> items[id] == i0[id]
    requires forall k :: 0 <= k < |rc| ==> items[orderId + 1 + k] == rc[k]
    requires forall k :: 0 <= k < |rc| ==> rc[k].order == orderId && rc[k].product in p0
    ensures Consistent(clients, products, orders[orderId := o], items, orderId + 1 + |rc|)
  {
    forall id | id in items
      ensures items[id].order in orders[orderId := o] && items[id].product in products
    {
      if id !in i0 {
        assert items[id] == rc[id - orderId - 1];
      }
    }
  }

  /** A sale whose lines all went through leaves the tables consistent: the
      new order names an existing client, the new items name the new order
      and existing products, and every new id is below the counter. */
  lemma {:induction false} SaleConsistent(clients: map<int, Client>, p0: map<int, Product>, orders: map<int, Order>,
                       i0: map<int, OrderItem>, orderId: int, lines: seq<Line>, o: Order)
    requires Consistent(clients, p0, orders, i0, orderId)
    requires forall k :: 0 <= k < |lines| ==> lines[k].product in p0
    requires o.client in clients
    ensures var s := Staged(p0, i0, orderId, lines);
      Consistent(clients, s.products, orders[orderId := o], s.items, orderId + 1 + |lines|)
  {
    var s, rc := Staged(p0, i0, orderId, lines), Receipt(orderId, p0, lines);
    StagedReceipt(p0, i0, orderId, lines);
    ReceiptConsistent(clients, p0, s.products, orders, i0, s.items, orderId, rc, o);
  }

  /** A sale the checks accept leaves no stock below zero that was not
      below zero before. */
  lemma SaleKeepsStock(read: string -> Option<Line>, p0: map<int, Product>, i0: map<int, OrderItem>,
                       orderId: int, raws: seq<string>)
    requires CheckLines(read, p0, raws).Ok?
    ensures var lines := CheckLines(read, p0, raws).value;
      forall pid :: pid in p0 && p0[pid].stock >= 0 ==> Staged(p0, i0, orderId, lines).products[pid].stock >= 0
  {
    var lines := CheckLines(read, p0, raws).value;
    StagedStock(p0, i0, orderId, lines);
    CheckLinesStockSuffices(read, p0, raws);
    forall pid | pid in p0 && p0[pid].stock >= 0
      ensures Staged(p0, i0, orderId, lines).products[pid].stock >= 0
    {
      if forall k :: 0 <= k < |lines| ==> lines[k].product != pid {
        RequestedAbsent(lines, pid);
      }
    }
  }

  /* ---------------- the loop against `CheckLines` ---------------- */

  /** `ls` in front of the lines of `r`, or `r`'s refusal. */
  ghost function Prepend(ls: seq<Line>, r: Result<seq<Line>, SaleError>): Result<seq<Line>, SaleError> {
    match r
    case Ok(rest) => Ok(ls + rest)
    case Err(e) => Err(e)
  }

  lemma PrependNothing(r: Result<seq<Line>, SaleError>)
    ensures Prepend([], r) == r
  {
    if r.Ok? {
      assert [] + r.value == r.value;
    }
  }

  /** Where the loop over the lines stands against `CheckLines`. */
  lemma CheckLinesNext(read: string -> Option<Line>, p0: map<int, Product>, raws: seq<string>, i: nat,
                       lines: seq<Line>, products: map<int, Product>)
    requires i < |raws|
    requires CheckLines(read, p0, raws) == Prepend(lines, CheckLines(read, products, raws[i..]))
    ensures CheckLine(read, products, raws[i]).Err? ==> CheckLines(read, p0, raws) == Err(CheckLine(read, products, raws[i]).error)
    ensures CheckLine(read, products, raws[i]).Ok? ==>
      var l := CheckLine(read, products, raws[i]).value;
      CheckLines(read, p0, raws) == Prepend(lines + [l], CheckLines(read, Take(products, l), raws[i + 1..]))
  {
    assert raws[i..][0] == raws[i] && raws[i..][1..] == raws[i + 1..];
    match CheckLine(read, products, raws[i])
    case Err(e) =>
    case Ok(l) =>
      match CheckLines(read, Take(products, l), raws[i + 1..])
      case Err(e) =>
      case Ok(rest) =>
        assert lines + ([l] + rest) == (lines + [l]) + rest;
  }

  /** The loop of a sale over its item fields, on pending copies of the
      product and item tables: each field is read with `read` and checked
      against the current stock in the handler's order (a line, a positive
      quantity, an existing product, enough stock), then the stock is taken
      and the item stored under the next id. The first refusal stops the loop. */
  method StageLines(read: string -> Option<Line>, p0: map<int, Product>, i0: map<int, OrderItem>,
                    orderId: int, raws: seq<string>)
    returns (r: Result<Staging, SaleError>)
    ensures r.Ok? <==> CheckLines(read, p0, raws).Ok?
    ensures r.Err? ==> r.error == CheckLines(read, p0, raws).error
    ensures r.Ok? ==> r.value == Staged(p0, i0, orderId, CheckLines(read, p0, raws).value)
  {
    var products, items, total := p0, i0, 0.0;
    ghost var lines: seq<Line> := [];
    var i := 0;
    assert raws[0..] == raws;
    PrependNothing(CheckLines(read, p0, raws));
    while i < |raws|
      invariant 0 <= i <= |raws| && |lines| == i
      invariant forall k :: 0 <= k < |lines| ==> lines[k].product in p0
      invariant Staging(products, items, total) == Staged(p0, i0, orderId, lines)
      invariant CheckLines(read, p0, raws) == Prepend(lines, CheckLines(read, products, raws[i..]))
    {
      CheckLinesNext(read, p0, raws, i, lines, products);
      var parsed := read(raws[i]);
      if parsed.None? {
        return Err(InvalidItem(raws[i]));
      }
      var l := parsed.value;
      if l.qty <= 0 {
        return Err(NonPositiveQuantity);
      }
      if l.product !in products {
        return Err(UnknownProduct(l.product));
      }
      if products[l.product].stock < l.qty {
        return Err(InsufficientStock(products[l.product].name, products[l.product].stock));
      }
      var item := ItemFor(orderId, products, l);
      StagedStep(p0, i0, orderId, lines, l, products, items, total);
      total := total + Amount(item);
      products := Take(products, l);
      items := items[orderId + 1 + i := item];
      lines := lines + [l];
      i := i + 1;
    }
    assert raws[i..] == [] && lines + [] == lines;
    r := Ok(Staging(products, items, total));
  }

  /** No product's stock is below zero. */
  ghost predicate NonNegative(products: map<int, Product>)
  {
    forall pid :: pid in products ==> products[pid].stock >= 0
  }

  /** What a sale request leaves pending: the refusal `Sale` gives, or the
      tables and total its lines stage under order `orderId`. */
  function Outcome(clients: map<int, Client>, products: map<int, Product>, items: map<int, OrderItem>,
                   orderId: int, cid: Option<int>, raws: seq<string>): Result<Staging, SaleError>
  {
    match Sale(clients, products, cid, raws)
    case Err(e) => Err(e)
    case Ok(lines) => Ok(Staged(products, items, orderId, lines))
  }

  /** What committing an accepted sale keeps: the tables with the new order
      are consistent, and no stock the sale found non-negative is left
      negative. */
  lemma SaleCommits(clients: map<int, Client>, p0: map<int, Product>, orders: map<int, Order>,
                    i0: map<int, OrderItem>, orderId: int, cid: Option<int>, raws: seq<string>, s: Staging)
    requires Consistent(clients, p0, orders, i0, orderId)
    requires Outcome(clients, p0, i0, orderId, cid, raws) == Ok(s)
    ensures Consistent(clients, s.products, orders[orderId := Order(cid.value, Paid, s.total)], s.items,
                       orderId + 1 + |raws|)
    ensures NonNegative(p0) ==> NonNegative(s.products)
  {
    assert cid.Some? && cid.value != 0 && cid.value in clients && raws != [];
    var lines := CheckLines(ParseItem, p0, raws).value;
    assert s == Staged(p0, i0, orderId, lines);
    SaleConsistent(clients, p0, orders, i0, orderId, lines, Order(cid.value, Paid, s.total));
    SaleKeepsStock(ParseItem, p0, i0, orderId, raws);
  }

  /** The sale handler up to its commit: the guards on the client and item
      fields, then the loop over the fields on pending copies of the product
      and item tables. */
  method Sell(clients: map<int, Client>, products: map<int, Product>, items: map<int, OrderItem>,
              orderId: int, cid: Option<int>, raws: seq<string>)
    returns (r: Result<Staging, SaleError>)
    ensures r == Outcome(clients, products, items, orderId, cid, raws)
    ensures cid.None? || cid.value == 0 || raws == [] ==> r == Err(MissingInput)
    ensures cid.Some? && cid.value != 0 && cid.value !in clients && raws != [] ==> r == Err(UnknownClient(cid.value))
  {
    if cid.None? || cid.value == 0 || raws == [] {
      return Err(MissingInput);
    }
    var clientId := cid.value;
    if clientId !in clients {
      // the new order's client reference is refused when it is flushed
      return Err(UnknownClient(clientId));
    }
    r := StageLines(ParseItem, products, items, orderId, raws);
  }

  class Store {
    var clients: map<int, Client>
    var products: map<int, Product>
    var orders: map<int, Order>
    var items: map<int, OrderItem>
    /** The id the next inserted row gets. */
    var nextId: int

    /** The tables' references hold and ids stay below the counter. */
    ghost predicate Valid()
      reads this
    {
      Consistent(clients, products, orders, items, nextId)
    }

    ghost predicate StockNonNegative()
      reads this
    {
      NonNegative(products)
    }

    constructor ()
      ensures Valid()
      ensures clients == map[] && products == map[] && orders == map[] && items == map[]
    {
      clients, products, orders, items := map[], map[], map[], map[];
      nextId := 1;
    }

    /* ---------------- clients ---------------- */

    /** A client needs a name; an empty e-mail is stored as none. */
    method RegisterClient(name: Option<string>, email: Option<string>) returns (r: Result<int, Refusal>)
      requires Valid()
      modifies this
      ensures Valid()
      ensures Blank(name) ==> r == Err(NameRequired) && clients == old(clients) && nextId == old(nextId)
      ensures !Blank(name) ==>
        && r == Ok(old(nextId)) && old(nextId) !in old(clients)
        && clients == old(clients)[old(nextId) := Client(name.value, OrNone(email))]
        && nextId == old(nextId) + 1
      ensures products == old(products) && orders == old(orders) && items == old(items)
    {
      if Blank(name) {
        return Err(NameRequired);
      }
      var id := nextId;
      clients := clients[id := Client(name.value, OrNone(email))];
      nextId := nextId + 1;
      r := Ok(id);
    }

    /** The client must exist and the new name must not be empty; then both
        name and e-mail are replaced. */
    method EditClient(id: int, name: Option<string>, email: Option<string>) returns (r: Result<(), Refusal>)
      requires Valid()
      modifies this
      ensures Valid()
      ensures id !in old(clients) ==> r == Err(NotFound)
      ensures id in old(clients) && Blank(name) ==> r == Err(NameRequired)
      ensures r.Ok? <==> id in old(clients) && !Blank(name)
      ensures r.Ok? ==> clients == old(clients)[id := Client(name.value, OrNone(email))]
      ensures r.Err? ==> clients == old(clients)
      ensures products == old(products) && orders == old(orders) && items == old(items) && nextId == old(nextId)
    {
      if id !in clients {
        return Err(NotFound);
      }
      if Blank(name) {
        return Err(NameRequired);
      }
      clients := clients[id := Client(name.value, OrNone(email))];
      r := Ok(());
    }

    /* ---------------- products ---------------- */

    /** A product needs a name and a price; a missing or unreadable stock is
        0 and a missing or unreadable category is none. `stock` and
        `category` are the fields as the form reads them with `type=int`. */
    method RegisterProduct(name: Option<string>, price: Option<real>, stock: Option<int>,
                           category: Option<int>) returns (r: Result<int, Refusal>)
      requires Valid()
      modifies this
      ensures Valid()
      ensures Blank(name) || price.None? ==> r == Err(NameAndPriceRequired) && products == old(products) && nextId == old(nextId)
      ensures !Blank(name) && price.Some? ==>
        && r == Ok(old(nextId)) && old(nextId) !in old(products)
        && products == old(products)[old(nextId) := Product(name.value, price.value, if stock.Some? then stock.value else 0, category)]
        && nextId == old(nextId) + 1
      ensures clients == old(clients) && orders == old(orders) && items == old(items)
    {
      if Blank(name) || price.None? {
        return Err(NameAndPriceRequired);
      }
      var id := nextId;
      products := products[id := Product(name.value, price.value, if stock.Some? then stock.value else 0, category)];
      nextId := nextId + 1;
      r := Ok(id);
    }

    /** The product must exist and name and price must be given; the stock
        keeps its value unless a readable stock is supplied, while the
        category is replaced even when none is supplied. */
    method EditProduct(id: int, name: Option<string>, price: Option<real>, stock: Option<int>,
                       category: Option<int>) returns (r: Result<(), Refusal>)
      requires Valid()
      modifies this
      ensures Valid()
      ensures id !in old(products) ==> r == Err(NotFound)
      ensures id in old(products) && (Blank(name) || price.None?) ==> r == Err(NameAndPriceRequired)
      ensures r.Ok? <==> id in old(products) && !Blank(name) && price.Some?
      ensures r.Ok? ==> products == old(products)[id := Product(name.value, price.value,
                          if stock.Some? then stock.value else old(products)[id].stock, category)]
      ensures r.Ok? && stock.None? ==> products[id].stock == old(products)[id].stock
      ensures r.Err? ==> products == old(products)
      ensures clients == old(clients) && orders == old(orders) && items == old(items) && nextId == old(nextId)
    {
      if id !in products {
        return Err(NotFound);
      }
      if Blank(name) || price.None? {
        return Err(NameAndPriceRequired);
      }
      var product := products[id];
      products := products[id := Product(name.value, price.value,
                                         if stock.Some? then stock.value else product.stock, category)];
      r := Ok(());
    }

    /* ---------------- a sale ---------------- */

    /** One sale as one unit of work. Either every line is accepted, in which
        case the order, one item per line and every stock decrement are
        stored together, or the first refusal is returned and nothing at all
        has changed. `cid` is the client field as the form reads it with
        `type=int`. */
    method PlaceOrder(cid: Option<int>, raws: seq<string>) returns (r: Result<int, SaleError>)
      requires Valid()
      modifies this
      ensures Valid()
      ensures cid.None? || cid.value == 0 || raws == [] ==> r == Err(MissingInput)
      ensures cid.Some? && cid.value != 0 && cid.value !in old(clients) && raws != [] ==>
        r == Err(UnknownClient(cid.value))
      ensures r.Ok? <==> Outcome(old(clients), old(products), old(items), old(nextId), cid, raws).Ok?
      ensures r.Err? ==>
        && r.error == Outcome(old(clients), old(products), old(items), old(nextId), cid, raws).error
        && clients == old(clients) && products == old(products) && orders == old(orders)
        && items == old(items) && nextId == old(nextId)
      ensures r.Ok? ==>
        var after := Outcome(old(clients), old(products), old(items), old(nextId), cid, raws).value;
        && r.value == old(nextId) && r.value !in old(orders)
        && clients == old(clients)
        && orders == old(orders)[r.value := Order(cid.value, Paid, after.total)]
        && products == after.products && items == after.items
        && nextId == r.value + 1 + |raws|
      ensures r.Ok? && old(StockNonNegative()) ==> StockNonNegative()
    {
      // the order's id comes from the flush before the lines are read;
      // everything else stays pending until the commit
      var orderId := nextId;
      var staged := Sell(clients, products, items, orderId, cid, raws);
      if staged.Err? {
        return Err(staged.error);
      }
      assert cid.Some? && cid.value != 0 && cid.value in clients && raws != [];
      Record(cid, raws, staged.value);
      r := Ok(orderId);
    }

    /** The commit of an accepted sale: the order with its total, its items
        and the new stock are stored together under the next ids. */
    method Record(cid: Option<int>, raws: seq<string>, s: Staging)
      requires Valid() && cid.Some?
      requires Outcome(clients, products, items, nextId, cid, raws) == Ok(s)
      modifies this
      ensures Valid()
      ensures old(nextId) !in old(orders)
      ensures clients == old(clients) && orders == old(orders)[old(nextId) := Order(cid.value, Paid, s.total)]
      ensures products == s.products && items == s.items && nextId == old(nextId) + 1 + |raws|
      ensures old(StockNonNegative()) ==> StockNonNegative()
    {
      var orderId := nextId;
      SaleCommits(clients, products, orders, items, orderId, cid, raws, s);
      orders := orders[orderId := Order(cid.value, Paid, s.total)];
      products, items := s.products, s.items;
      nextId := orderId + 1 + |raws|;
    }

    /* ---------------- guarded deletes ---------------- */

    /** A client that still has orders is not deleted; the refusal carries
        how many. */
    method DeleteClient(id: int) returns (r: Result<(), Refusal>)
      requires Valid()
      modifies this
      ensures Valid()
      ensures id !in old(clients) ==> r == Err(NotFound)
      ensures id in old(clients) && OrdersOf(old(orders), id) != {} ==>
        r == Err(ClientHasOrders(|OrdersOf(old(orders), id)|))
      ensures r.Ok? <==> id in old(clients) && OrdersOf(old(orders), id) == {}
      ensures clients == if r.Ok? then old(clients) - {id} else old(clients)
      ensures products == old(products) && orders == old(orders) && items == old(items) && nextId == old(nextId)
    {
      if id !in clients {
        return Err(NotFound);
      }
      var count := |OrdersOf(orders, id)|;
      if count > 0 {
        return Err(ClientHasOrders(count));
      }
      forall o | o in orders
        ensures orders[o].client != id
      {
        assert o !in OrdersOf(orders, id);
      }
      clients := clients - {id};
      r := Ok(());
    }

    /** A product that order items still name is not deleted; the refusal
        carries how many items name it. */
    method DeleteProduct(id: int) returns (r: Result<(), Refusal>)
      requires Valid()
      modifies this
      ensures Valid()
      ensures id !in old(products) ==> r == Err(NotFound)
      ensures id in old(products) && ItemsOfProduct(old(items), id) != {} ==>
        r == Err(ProductInItems(|ItemsOfProduct(old(items), id)|))
      ensures r.Ok? <==> id in old(products) && ItemsOfProduct(old(items), id) == {}
      ensures products == if r.Ok? then old(products) - {id} else old(products)
      ensures clients == old(clients) && orders == old(orders) && items == old(items) && nextId == old(nextId)
    {
      if id !in products {
        return Err(NotFound);
      }
      var count := |ItemsOfProduct(items, id)|;
      if count > 0 {
        return Err(ProductInItems(count));
      }
      forall k | k in items
        ensures items[k].product != id
      {
        assert k !in ItemsOfProduct(items, id);
      }
      products := products - {id};
      r := Ok(());
    }

    /** An order is always deleted when it exists, and its items with it. */
    method DeleteOrder(id: int) returns (r: Result<(), Refusal>)
      requires Valid()
      modifies this
      ensures Valid()
      ensures r.Ok? <==> id in old(orders)
      ensures r.Err? ==> r == Err(NotFound) && orders == old(orders) && items == old(items)
      ensures r.Ok? ==> orders == old(orders) - {id}
      ensures r.Ok? ==> items == old(items) - ItemsOfOrder(old(items), id)
      ensures clients == old(clients) && products == old(products) && nextId == old(nextId)
    {
      if id !in orders {
        return Err(NotFound);
      }
      items := items - ItemsOfOrder(items, id);
      orders := orders - {id};
      r := Ok(());
    }
  }
}
