/** The records of the back-office (clients, products, orders, order items)
    and the pure rules of a sale: how one `"produto_id,qtd"` field is read,
    how a request's lines are checked one after the other against the stock
    left by the lines before them, and what the order's total is. */
module Catalog {
  import opened Results
  import opened PyText

  datatype Client = Client(name: string, email: Option<string>)

  /** `price` is the exact decimal of the price column; `stock` is an
      unbounded integer. */
  datatype Product = Product(name: string, price: real, stock: int, category: Option<int>)

  datatype Order = Order(client: int, status: string, total: real)

  /** `unitPrice` is the product's price when the sale was made. */
  datatype OrderItem = OrderItem(order: int, product: int, quantity: int, unitPrice: real)

  /** The status every placed order gets. */
  const Paid: string := "pago"

  /** One parsed `"produto_id,qtd"` field. */
  datatype Line = Line(product: int, qty: int)

  /** Why a sale is refused; each stands for one of the handler's messages. */
  datatype SaleError =
    | MissingInput                         // no client or no item
    | UnknownClient(client: int)           // the order's client reference fails
    | InvalidItem(raw: string)             // not two integers separated by one comma
    | NonPositiveQuantity
    | UnknownProduct(product: int)
    | InsufficientStock(name: string, available: int)

  /* ---------------- form fields ---------------- */

  /** `not value` on a form field: missing or empty. */
  predicate Blank(field: Option<string>) {
    field.None? || field.value == ""
  }

  /** `value or None` on a form field. */
  function OrNone(field: Option<string>): Option<string>
  {
    if Blank(field) then None else field
  }

  /* ---------------- one item field ---------------- */

  /** `produto_id_str, qtd_str = raw.split(",")` followed by two `int()`
      calls; `None` where any of them raises. */
  function ParseItem(raw: string): Option<Line> {
    var parts := Split(raw, ',');
    if |parts| != 2 then None
    else
      match (ParseInt(parts[0]), ParseInt(parts[1]))
      case (Some(p), Some(q)) => Some(Line(p, q))
      case _ => None
  }

  /** The field the sale form posts for one line. */
  function FormatItem(l: Line): string {
    IntToString(l.product) + "," + IntToString(l.qty)
  }

  lemma NoCommaInNumber(n: int)
    ensures ',' !in IntToString(n)
  {
    IntToStringShape(n);
  }

  /** Every line the form can post is read back as that line. */
  lemma ParseItemRoundTrip(l: Line)
    ensures ParseItem(FormatItem(l)) == Some(l)
  {
    var a, b := IntToString(l.product), IntToString(l.qty);
    NoCommaInNumber(l.product);
    NoCommaInNumber(l.qty);
    assert Join([a, b], ',') == FormatItem(l);
    SplitJoin([a, b], ',');
    ParseIntRoundTrip(l.product);
    ParseIntRoundTrip(l.qty);
  }

  /** A field is read as a line only if it holds exactly one comma. */
  lemma ParseItemOneComma(raw: string)
    requires ParseItem(raw).Some?
    ensures exists i :: 0 <= i < |raw| && raw[i] == ',' && ',' !in raw[..i] && ',' !in raw[i + 1..]
  {
    var parts := Split(raw, ',');
    assert |parts| == 2;
    OneCommaBetween(raw, parts);
  }

  lemma OneCommaBetween(raw: string, parts: seq<string>)
    requires parts == Split(raw, ',') && |parts| == 2
    ensures exists i :: 0 <= i < |raw| && raw[i] == ',' && ',' !in raw[..i] && ',' !in raw[i + 1..]
  {
    JoinSplit(raw, ',');
    SplitPieces(raw, ',');
    assert parts[..1] == [parts[0]];
    assert raw == parts[0] + [','] + parts[1];
    var i := |parts[0]|;
    assert raw[..i] == parts[0] && raw[i + 1..] == parts[1];
    assert ',' !in parts[0] && ',' !in parts[1];
  }

  /* ---------------- checking the lines of a request ---------------- */

  /** The total quantity `lines` ask of product `pid`. */
  function Requested(lines: seq<Line>, pid: int): int {
    if lines == [] then 0
    else
      var last := lines[|lines| - 1];
      Requested(lines[..|lines| - 1], pid) + (if last.product == pid then last.qty else 0)
  }

  /** `products` after line `l` took its quantity from stock. */
  function Take(products: map<int, Product>, l: Line): (r: map<int, Product>)
    requires l.product in products
    ensures r.Keys == products.Keys
  {
    products[l.product := products[l.product].(stock := products[l.product].stock - l.qty)]
  }

  /** One line against the current stock: it must be read as a line (by
      `read`, which the handler fixes to `ParseItem`), ask for a positive
      quantity of a product that exists, and find at least that much stock. */
  function CheckLine(read: string -> Option<Line>, products: map<int, Product>, raw: string): (r: Result<Line, SaleError>)
    ensures r.Ok? ==> read(raw) == Some(r.value)
    ensures r.Ok? ==> r.value.product in products && r.value.qty > 0 && r.value.qty <= products[r.value.product].stock
  {
    match read(raw)
    case None => Err(InvalidItem(raw))
    case Some(l) =>
      if l.qty <= 0 then Err(NonPositiveQuantity)
      else if l.product !in products then Err(UnknownProduct(l.product))
      else if products[l.product].stock < l.qty then
        Err(InsufficientStock(products[l.product].name, products[l.product].stock))
      else Ok(l)
  }

  /** All lines in request order, each against the stock the earlier ones
      left; the first refusal is the answer. */
  function CheckLines(read: string -> Option<Line>, products: map<int, Product>, raws: seq<string>): (r: Result<seq<Line>, SaleError>)
    ensures r.Ok? ==> |r.value| == |raws|
    ensures r.Ok? ==> forall k :: 0 <= k < |r.value| ==> r.value[k].product in products && r.value[k].qty > 0
    decreases |raws|
  {
    if raws == [] then Ok([])
    else
      match CheckLine(read, products, raws[0])
      case Err(e) => Err(e)
      case Ok(l) =>
        match CheckLines(read, Take(products, l), raws[1..])
        case Err(e) => Err(e)
        case Ok(ls) => Ok([l] + ls)
  }

  /** The whole decision on a sale request: a client id and at least one
      item are required, the client must exist, then every line is checked.
      `cid` is the client field as the form reads it with `type=int`: `None`
      when it is missing or `int()` rejects it. */
  function Sale(clients: map<int, Client>, products: map<int, Product>,
                cid: Option<int>, raws: seq<string>): Result<seq<Line>, SaleError>
  {
    if cid.None? || cid.value == 0 || raws == [] then Err(MissingInput)
    else if cid.value !in clients then Err(UnknownClient(cid.value))
    else CheckLines(ParseItem, products, raws)
  }

  /** Line `i` of the reference reading below. */
  ghost predicate LineAccepted(read: string -> Option<Line>, products: map<int, Product>, raws: seq<string>, lines: seq<Line>, i: int)
    requires 0 <= i < |raws| == |lines|
  {
    && read(raws[i]) == Some(lines[i])
    && lines[i].qty > 0
    && lines[i].product in products
    && Requested(lines[..i + 1], lines[i].product) <= products[lines[i].product].stock
  }

  /** The reference reading of an accepted request, without the loop: every
      field parses, every quantity is positive, every product exists and,
      for each line, its product's original stock covers everything the
      request asked of that product up to and including that line. */
  ghost predicate Accepted(read: string -> Option<Line>, products: map<int, Product>, raws: seq<string>, lines: seq<Line>) {
    && |lines| == |raws|
    && forall i :: 0 <= i < |raws| ==> LineAccepted(read, products, raws, lines, i)
  }

  lemma {:induction false} RequestedCons(l: Line, ls: seq<Line>, pid: int)
    ensures Requested([l] + ls, pid) == (if l.product == pid then l.qty else 0) + Requested(ls, pid)
  {
    if ls != [] {
      var s := [l] + ls;
      assert s[..|s| - 1] == [l] + ls[..|ls| - 1];
      RequestedCons(l, ls[..|ls| - 1], pid);
    } else {
      assert ([l] + ls)[..0] == [];
    }
  }

  lemma {:induction false} RequestedAbsent(ls: seq<Line>, pid: int)
    requires forall k :: 0 <= k < |ls| ==> ls[k].product != pid
    ensures Requested(ls, pid) == 0
  {
    if ls != [] { RequestedAbsent(ls[..|ls| - 1], pid); }
  }

  /** Line `j + 1` of a request is accepted against the original stock
      exactly when it is accepted as line `j` of the rest of the request,
      against the stock the first line left. */
  lemma LineAcceptedShift(read: string -> Option<Line>, products: map<int, Product>, raw: string, rest: seq<string>, l: Line, ls: seq<Line>, j: int)
    requires l.product in products
    requires 0 <= j < |rest| == |ls|
    ensures LineAccepted(read, products, [raw] + rest, [l] + ls, j + 1) <==> LineAccepted(read, Take(products, l), rest, ls, j)
  {
    var raws, lines := [raw] + rest, [l] + ls;
    assert raws[j + 1] == rest[j] && lines[j + 1] == ls[j];
    assert lines[..j + 2] == [l] + ls[..j + 1];
    RequestedCons(l, ls[..j + 1], ls[j].product);
  }

  /** The first line of a request, and what the rest must meet afterwards. */
  lemma AcceptedStep(read: string -> Option<Line>, products: map<int, Product>, raw: string, rest: seq<string>, l: Line, ls: seq<Line>)
    requires CheckLine(read, products, raw) == Ok(l)
    requires |ls| == |rest|
    ensures Accepted(read, Take(products, l), rest, ls) <==> Accepted(read, products, [raw] + rest, [l] + ls)
  {
    var raws, lines, p' := [raw] + rest, [l] + ls, Take(products, l);
    assert LineAccepted(read, products, raws, lines, 0) by {
      assert lines[..1] == [l];
      RequestedCons(l, [], l.product);
      assert [l] + [] == [l];
    }
    forall j | 0 <= j < |rest|
      ensures LineAccepted(read, products, raws, lines, j + 1) <==> LineAccepted(read, p', rest, ls, j)
    {
      LineAcceptedShift(read, products, raw, rest, l, ls, j);
    }
    if Accepted(read, p', rest, ls) {
      forall i | 0 <= i < |raws|
        ensures LineAccepted(read, products, raws, lines, i)
      {
        if i > 0 { assert LineAccepted(read, p', rest, ls, i - 1); }
      }
    }
    if Accepted(read, products, raws, lines) {
      forall j | 0 <= j < |rest|
        ensures LineAccepted(read, p', rest, ls, j)
      {
        assert LineAccepted(read, products, raws, lines, j + 1);
      }
    }
  }

  /** An accepted request's first line passes the single-line check. */
  lemma FirstLineAccepted(read: string -> Option<Line>, products: map<int, Product>, raws: seq<string>, lines: seq<Line>)
    requires raws != []
    ensures Accepted(read, products, raws, lines) ==> |lines| > 0 && CheckLine(read, products, raws[0]) == Ok(lines[0])
  {
    if Accepted(read, products, raws, lines) {
      assert LineAccepted(read, products, raws, lines, 0);
      assert lines[..1] == [lines[0]];
      RequestedCons(lines[0], [], lines[0].product);
      assert [lines[0]] + [] == [lines[0]];
    }
  }

  /** The loop in `CheckLines` accepts exactly the requests the reference
      reading accepts, and returns the lines it reads. */
  lemma {:induction false} CheckLinesAccepted(read: string -> Option<Line>, products: map<int, Product>, raws: seq<string>, lines: seq<Line>)
    ensures CheckLines(read, products, raws) == Ok(lines) <==> Accepted(read, products, raws, lines)
    decreases |raws|
  {
    if raws == [] {
    } else {
      var raw, rest := raws[0], raws[1..];
      assert raws == [raw] + rest;
      FirstLineAccepted(read, products, raws, lines);
      match CheckLine(read, products, raw)
      case Err(e) =>
      case Ok(l) =>
        if lines != [] && lines[0] == l {
          CheckLinesAccepted(read, Take(products, l), rest, lines[1..]);
          assert lines == [l] + lines[1..];
          if |lines| == |raws| {
            AcceptedStep(read, products, raw, rest, l, lines[1..]);
          }
        }
    }
  }

  /** Stock is enough for the whole request: whatever an accepted request
      asks of a product, in total, is at most that product's stock. */
  lemma {:induction false} CheckLinesStockSuffices(read: string -> Option<Line>, products: map<int, Product>, raws: seq<string>)
    requires CheckLines(read, products, raws).Ok?
    ensures forall k :: 0 <= k < |raws| ==>
      Requested(CheckLines(read, products, raws).value, CheckLines(read, products, raws).value[k].product)
        <= products[CheckLines(read, products, raws).value[k].product].stock
    decreases |raws|
  {
    if raws != [] {
      var lines := CheckLines(read, products, raws).value;
      var l := lines[0];
      var p' := Take(products, l);
      var ls := CheckLines(read, p', raws[1..]).value;
      assert lines == [l] + ls;
      CheckLinesStockSuffices(read, p', raws[1..]);
      forall k | 0 <= k < |raws|
        ensures Requested(lines, lines[k].product) <= products[lines[k].product].stock
      {
        var pid := lines[k].product;
        RequestedCons(l, ls, pid);
        if k > 0 {
          assert lines[k] == ls[k - 1];
        } else if exists j :: 0 <= j < |ls| && ls[j].product == pid {
          var j :| 0 <= j < |ls| && ls[j].product == pid;
          assert Requested(ls, ls[j].product) <= p'[ls[j].product].stock;
        } else {
          RequestedAbsent(ls, pid);
        }
      }
    }
  }

  /* ---------------- items and the order's total ---------------- */

  /** The item a line becomes, at the price the product has when it is read. */
  function ItemFor(orderId: int, products: map<int, Product>, l: Line): OrderItem
    requires l.product in products
  {
    OrderItem(orderId, l.product, l.qty, products[l.product].price)
  }

  /** The items of an order, one per line, in request order. */
  function Receipt(orderId: int, products: map<int, Product>, lines: seq<Line>): (items: seq<OrderItem>)
    requires forall k :: 0 <= k < |lines| ==> lines[k].product in products
    ensures |items| == |lines|
    ensures forall k :: 0 <= k < |lines| ==>
      items[k] == OrderItem(orderId, lines[k].product, lines[k].qty, products[lines[k].product].price)
  {
    if lines == [] then []
    else Receipt(orderId, products, lines[..|lines| - 1]) + [ItemFor(orderId, products, lines[|lines| - 1])]
  }

  /** What one item adds to its order's total. */
  function Amount(item: OrderItem): real {
    item.unitPrice * (item.quantity as real)
  }

  /** The exact sum of the items' amounts, starting from 0.00. */
  function ItemsTotal(items: seq<OrderItem>): real {
    if items == [] then 0.0
    else ItemsTotal(items[..|items| - 1]) + Amount(items[|items| - 1])
  }

  /** The total of two groups of items is the sum of their totals, so no
      grouping of the lines changes an order's total. */
  lemma {:induction false} ItemsTotalAppend(a: seq<OrderItem>, b: seq<OrderItem>)
    ensures ItemsTotal(a + b) == ItemsTotal(a) + ItemsTotal(b)
    decreases |b|
  {
    if b != [] {
      var b' := b[..|b| - 1];
      ItemsTotalAppend(a, b');
      assert (a + b)[..|a + b| - 1] == a + b';
    } else {
      assert a + b == a;
    }
  }

  /* ---------------- the references the delete guards count ---------------- */

  /** Ids of the orders that belong to client `c`. */
  function OrdersOf(orders: map<int, Order>, c: int): set<int>
  {
    set o | o in orders && orders[o].client == c
  }

  /** Ids of the order items that name product `p`. */
  function ItemsOfProduct(items: map<int, OrderItem>, p: int): set<int>
  {
    set i | i in items && items[i].product == p
  }

  /** Ids of the items that belong to order `o`. */
  function ItemsOfOrder(items: map<int, OrderItem>, o: int): set<int>
  {
    set i | i in items && items[i].order == o
  }
}
