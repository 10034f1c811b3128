/**
 * `POST /api/pedidos`: order placement inside one database transaction.
 *
 * The handler reads the customer's discount percentage, totals the posted
 * lines, inserts the order header, then for each line inserts a detail row
 * and lowers that product's stock; any failure rolls everything back. The
 * model runs the same statements, in the same order, on a working copy of
 * the store and returns either that copy (commit) or the untouched store
 * (rollback).
 *
 * Which statements the database rejects depends on schema constraints that
 * are not part of this model, so the caller supplies them as `rejected`.
 * The handler itself checks nothing else.
 */
module Orders {
  import opened Tables
  import opened Money
  import Cart

  /** The statements the handler issues, in order; detail and stock statements are per line. */
  datatype Stmt = Begin | SelectDiscount | InsertOrder | InsertDetail(line: nat) | UpdateStock(line: nat) | Commit

  /** Why a placement rolled back; the client sees a single error either way. */
  datatype Failure = CustomerMissing | Rejected(stmt: Stmt)

  datatype TxOutcome = Committed(store: Store, order: Order) | RolledBack(store: Store, cause: Failure)

  // ------------------------------------------------------------ definitions

  /** `rows[0]` of the customer query: the first row with that id, active or not. */
  function CustomerRow(cs: seq<Customer>, id: int): (r: Option<Customer>)
    ensures r.Some? ==> r.value in cs && r.value.id == id
    ensures r.None? <==> forall c :: c in cs ==> c.id != id
  {
    if |cs| == 0 then None
    else if cs[0].id == id then Some(cs[0])
    else
      var r := CustomerRow(cs[1..], id);
      assert forall c :: c in cs ==> c == cs[0] || c in cs[1..];
      r
  }

  /** The header row: total over the lines, the percentage discount and the final amount. */
  function OrderHeader(orderId: int, req: Cart.OrderRequest, pct: real): Order {
    var total := Subtotal(req.lines);
    var discount := Discount(total, pct);
    Order(orderId, req.customerId, total, discount, total - discount, req.notes)
  }

  /** The detail row of one line: a snapshot of id, name, quantity and price, and `cantidad * precio_unitario`. */
  function DetailRow(orderId: int, l: Line): Detail {
    Detail(orderId, l.productId, l.name, l.quantity, l.unitPrice, l.quantity as real * l.unitPrice)
  }

  function DetailRows(orderId: int, lines: seq<Line>): (r: seq<Detail>)
    ensures |r| == |lines|
  {
    seq(|lines|, k requires 0 <= k < |lines| => DetailRow(orderId, lines[k]))
  }

  /** `UPDATE producto SET stock = stock - cantidad WHERE id_producto = ...` for one line. */
  function DeductStock(ps: seq<Product>, l: Line): (r: seq<Product>)
    ensures |r| == |ps|
  {
    seq(|ps|, k requires 0 <= k < |ps| =>
      if ps[k].id == l.productId then ps[k].(stock := ps[k].stock - l.quantity) else ps[k])
  }

  /** The stock updates of all lines, applied in order. */
  function DeductAll(ps: seq<Product>, lines: seq<Line>): (r: seq<Product>)
    ensures |r| == |ps|
    decreases |lines|
  {
    if |lines| == 0 then ps
    else DeductStock(DeductAll(ps, lines[..|lines| - 1]), lines[|lines| - 1])
  }

  /** Total quantity ordered of product `id`, over all lines that name it. */
  function OrderedQty(lines: seq<Line>, id: int): int
    decreases |lines|
  {
    if |lines| == 0 then 0
    else OrderedQty(lines[..|lines| - 1], id)
         + (if lines[|lines| - 1].productId == id then lines[|lines| - 1].quantity else 0)
  }

  /** Sum of the subtotals of the detail rows of order `orderId`. */
  function DetailTotal(ds: seq<Detail>, orderId: int): real {
    if |ds| == 0 then 0.0
    else (if ds[0].orderId == orderId then ds[0].subtotal else 0.0) + DetailTotal(ds[1..], orderId)
  }

  /** None of the statements of an order with `n` lines is rejected. */
  predicate AllAccepted(rejected: set<Stmt>, n: nat) {
    && Begin !in rejected && SelectDiscount !in rejected && InsertOrder !in rejected
    && (forall j :: 0 <= j < n ==> InsertDetail(j) !in rejected && UpdateStock(j) !in rejected)
    && Commit !in rejected
  }

  /**
   * The committed state: one header appended, one detail row per line
   * appended, and each product's stock lowered by the total quantity
   * ordered of it. Users and customers are untouched.
   */
  function ApplyOrder(s: Store, req: Cart.OrderRequest, orderId: int, pct: real): (r: Store)
    ensures r.users == s.users && r.customers == s.customers
    ensures r.orders == s.orders + [OrderHeader(orderId, req, pct)]
    ensures |r.details| == |s.details| + |req.lines|
    ensures r.details[..|s.details|] == s.details
    ensures forall k :: 0 <= k < |req.lines| ==>
      r.details[|s.details| + k] == Detail(orderId, req.lines[k].productId, req.lines[k].name,
        req.lines[k].quantity, req.lines[k].unitPrice, req.lines[k].quantity as real * req.lines[k].unitPrice)
    ensures |r.products| == |s.products|
    ensures forall k :: 0 <= k < |s.products| ==>
      r.products[k] == s.products[k].(stock := s.products[k].stock - OrderedQty(req.lines, s.products[k].id))
    ensures forall k :: 0 <= k < |s.products| && !Cart.HasProduct(req.lines, s.products[k].id) ==>
      r.products[k] == s.products[k]
  {
    DeductAllStock(s.products, req.lines);
    DeductAllUntouched(s.products, req.lines);
    AppendDetailRows(s.details, orderId, req.lines);
    s.(orders := s.orders + [OrderHeader(orderId, req, pct)],
       details := s.details + DetailRows(orderId, req.lines),
       products := DeductAll(s.products, req.lines))
  }

  // -------------------------------------------------------------- execution

  /**
   * Runs the handler's statements against a working copy of `s`.
   * `orderId` is the id the database assigns to the new header.
   */
  method PlaceOrder(s: Store, req: Cart.OrderRequest, orderId: int, rejected: set<Stmt>) returns (out: TxOutcome)
    ensures out.RolledBack? ==> out.store == s
    ensures out.Committed? <==>
      CustomerRow(s.customers, req.customerId).Some? && AllAccepted(rejected, |req.lines|)
    ensures out.Committed? ==>
      var pct := CustomerRow(s.customers, req.customerId).value.discount;
      out.order == OrderHeader(orderId, req, pct) && out.store == ApplyOrder(s, req, orderId, pct)
    ensures (out.RolledBack? && Begin !in rejected && SelectDiscount !in rejected &&
             CustomerRow(s.customers, req.customerId).None?) ==> out.cause == CustomerMissing
  {
    if Begin in rejected {
      return RolledBack(s, Rejected(Begin));
    }
    if SelectDiscount in rejected {
      return RolledBack(s, Rejected(SelectDiscount));
    }
    var row := CustomerRow(s.customers, req.customerId);
    if row.None? {
      // `rows[0].descuento_actual` on an empty result throws.
      return RolledBack(s, CustomerMissing);
    }
    var pct := row.value.discount;

    var total := SumLines(req.lines);
    var discount := (total * pct) / 100.0;
    var finalTotal := total - discount;

    if InsertOrder in rejected {
      return RolledBack(s, Rejected(InsertOrder));
    }
    var order := Order(orderId, req.customerId, total, discount, finalTotal, req.notes);
    var work := s.(orders := s.orders + [order]);

    var done := InsertLines(work, orderId, req.lines, rejected);
    if done.Err? {
      return RolledBack(s, Rejected(done.error));
    }
    work := done.value;

    if Commit in rejected {
      return RolledBack(s, Rejected(Commit));
    }
    out := Committed(work, order);
  }

  /** The handler's first loop: `total += precio_unitario * cantidad` over the lines. */
  method SumLines(lines: seq<Line>) returns (total: real)
    ensures total == Subtotal(lines)
  {
    total := 0.0;
    var i := 0;
    while i < |lines|
      invariant 0 <= i <= |lines|
      invariant total == Subtotal(lines[..i])
    {
      SubtotalSnoc(lines, i);
      total := total + lines[i].unitPrice * lines[i].quantity as real;
      i := i + 1;
    }
    assert lines[..|lines|] == lines;
  }

  /**
   * The handler's second loop: per line, insert the detail row, then lower
   * the stock. It stops at the first rejected statement and names it;
   * otherwise every detail row and stock update has been applied to `work`.
   */
  method InsertLines(work: Store, orderId: int, lines: seq<Line>, rejected: set<Stmt>)
    returns (r: Result<Store, Stmt>)
    ensures r.Ok? <==> forall j :: 0 <= j < |lines| ==> InsertDetail(j) !in rejected && UpdateStock(j) !in rejected
    ensures r.Ok? ==> r.value == work.(details := work.details + DetailRows(orderId, lines),
                                       products := DeductAll(work.products, lines))
    ensures r.Err? ==> r.error in rejected && (r.error.InsertDetail? || r.error.UpdateStock?) && r.error.line < |lines|
  {
    var cur := work;
    var i := 0;
    while i < |lines|
      invariant 0 <= i <= |lines|
      invariant forall j :: 0 <= j < i ==> InsertDetail(j) !in rejected && UpdateStock(j) !in rejected
      invariant cur == work.(details := work.details + DetailRows(orderId, lines[..i]),
                             products := DeductAll(work.products, lines[..i]))
    {
      if InsertDetail(i) in rejected {
        return Err(InsertDetail(i));
      }
      cur := cur.(details := cur.details + [DetailRow(orderId, lines[i])]);
      if UpdateStock(i) in rejected {
        return Err(UpdateStock(i));
      }
      cur := cur.(products := DeductStock(cur.products, lines[i]));
      PrefixStep(work.products, orderId, lines, i);
      i := i + 1;
    }
    assert lines[..|lines|] == lines;
    return Ok(cur);
  }

  // ---------------------------------------------------------------- lemmas

  /** Extending the processed prefix by line `i` adds its detail row and its stock update. */
  lemma PrefixStep(ps: seq<Product>, orderId: int, lines: seq<Line>, i: nat)
    requires i < |lines|
    ensures DetailRows(orderId, lines[..i + 1]) == DetailRows(orderId, lines[..i]) + [DetailRow(orderId, lines[i])]
    ensures DeductAll(ps, lines[..i + 1]) == DeductStock(DeductAll(ps, lines[..i]), lines[i])
  {
    assert lines[..i + 1][..i] == lines[..i];
  }

  /** After all stock updates, each row's stock is down by the total quantity ordered of it. */
  lemma {:induction false} DeductAllStock(ps: seq<Product>, lines: seq<Line>)
    ensures forall k :: 0 <= k < |ps| ==>
      DeductAll(ps, lines)[k] == ps[k].(stock := ps[k].stock - OrderedQty(lines, ps[k].id))
    decreases |lines|
  {
    if |lines| > 0 {
      DeductAllStock(ps, lines[..|lines| - 1]);
    }
  }

  /** Stock updates leave alone every product no line names. */
  lemma DeductAllUntouched(ps: seq<Product>, lines: seq<Line>)
    ensures forall k :: 0 <= k < |ps| && !Cart.HasProduct(lines, ps[k].id) ==> DeductAll(ps, lines)[k] == ps[k]
  {
    DeductAllStock(ps, lines);
    forall k | 0 <= k < |ps| && !Cart.HasProduct(lines, ps[k].id)
      ensures OrderedQty(lines, ps[k].id) == 0
    {
      OrderedQtyAbsent(lines, ps[k].id);
    }
  }

  /** Appending the detail rows of `lines` keeps the old rows and snapshots each line after them. */
  lemma AppendDetailRows(ds: seq<Detail>, orderId: int, lines: seq<Line>)
    ensures (ds + DetailRows(orderId, lines))[..|ds|] == ds
    ensures forall k :: 0 <= k < |lines| ==>
      (ds + DetailRows(orderId, lines))[|ds| + k] == Detail(orderId, lines[k].productId, lines[k].name,
        lines[k].quantity, lines[k].unitPrice, lines[k].quantity as real * lines[k].unitPrice)
  {
    assert (ds + DetailRows(orderId, lines))[..|ds|] == ds;
  }

  lemma {:induction false} OrderedQtyAbsent(lines: seq<Line>, id: int)
    requires !Cart.HasProduct(lines, id)
    ensures OrderedQty(lines, id) == 0
    decreases |lines|
  {
    if |lines| > 0 {
      var init := lines[..|lines| - 1];
      assert !Cart.HasProduct(init, id) by {
        forall k | 0 <= k < |init|
          ensures init[k].productId != id
        {
          assert init[k] == lines[k];
        }
      }
      OrderedQtyAbsent(init, id);
    }
  }

  /** The detail subtotals of a set of lines add up to the lines' subtotal. */
  lemma {:induction false} DetailRowsTotal(orderId: int, lines: seq<Line>)
    ensures DetailTotal(DetailRows(orderId, lines), orderId) == Subtotal(lines)
    decreases |lines|
  {
    if |lines| > 0 {
      DetailRowsTotal(orderId, lines[1..]);
      assert DetailRows(orderId, lines)[1..] == DetailRows(orderId, lines[1..]);
      assert lines[0].quantity as real * lines[0].unitPrice == Amount(lines[0]);
    }
  }

  lemma {:induction false} DetailTotalAppend(a: seq<Detail>, b: seq<Detail>, orderId: int)
    ensures DetailTotal(a + b, orderId) == DetailTotal(a, orderId) + DetailTotal(b, orderId)
    decreases |a|
  {
    if |a| == 0 {
      assert a + b == b;
    } else {
      assert (a + b)[1..] == a[1..] + b;
      DetailTotalAppend(a[1..], b, orderId);
    }
  }

  lemma {:induction false} DetailTotalFresh(ds: seq<Detail>, orderId: int)
    requires forall k :: 0 <= k < |ds| ==> ds[k].orderId != orderId
    ensures DetailTotal(ds, orderId) == 0.0
    decreases |ds|
  {
    if |ds| > 0 {
      assert forall k :: 0 <= k < |ds[1..]| ==> ds[1..][k] == ds[k + 1];
      DetailTotalFresh(ds[1..], orderId);
    }
  }

  /**
   * After placement under a fresh order id, the detail rows of the new
   * order add up to its header total.
   */
  lemma DetailsMatchHeader(s: Store, req: Cart.OrderRequest, orderId: int, pct: real)
    requires forall k :: 0 <= k < |s.details| ==> s.details[k].orderId != orderId
    ensures DetailTotal(ApplyOrder(s, req, orderId, pct).details, orderId)
         == OrderHeader(orderId, req, pct).total
  {
    var r := ApplyOrder(s, req, orderId, pct);
    assert r.details == s.details + DetailRows(orderId, req.lines);
    DetailTotalAppend(s.details, DetailRows(orderId, req.lines), orderId);
    DetailTotalFresh(s.details, orderId);
    DetailRowsTotal(orderId, req.lines);
  }

  /**
   * With non-negative prices and quantities and a percentage in [0, 100],
   * the header's final amount lies between zero and its total.
   */
  lemma HeaderFinalWithinTotal(orderId: int, req: Cart.OrderRequest, pct: real)
    requires NonNegativeLines(req.lines) && 0.0 <= pct <= 100.0
    ensures 0.0 <= OrderHeader(orderId, req, pct).finalTotal <= OrderHeader(orderId, req, pct).total
  {
    FinalAmountWithinSubtotal(req.lines, pct);
  }

  /**
   * The header the server stores for a submitted cart carries the same
   * subtotal, discount and total that the client displayed, as long as the
   * customer's percentage in the store is the one the client holds.
   */
  lemma ServerAgreesWithClient(d: Cart.Draft, s: Store, orderId: int)
    requires Cart.Submit(d).Ok?
    requires CustomerRow(s.customers, d.customer.value.id).Some?
    requires CustomerRow(s.customers, d.customer.value.id).value.discount == d.customer.value.discount
    ensures var req := Cart.Submit(d).value;
            var h := OrderHeader(orderId, req, CustomerRow(s.customers, req.customerId).value.discount);
            var t := Cart.CartTotals(d);
            h.total == t.subtotal && h.discount == t.discount && h.finalTotal == t.total
  {
  }
}
