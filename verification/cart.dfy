/**
 * The order being composed in the client (`pedidoActual`): a selected
 * customer, a list of lines keyed by product id, and notes. The add,
 * remove and quantity handlers are pure functions that rewrite the draft's
 * lines; the `...pedidoActual` spread leaves the customer and notes as they
 * were. Rendering, alerts and the HTTP call itself are outside the model.
 */
module Cart {
  import opened Tables
  import opened Money

  datatype Draft = Draft(customer: Option<Customer>, lines: seq<Line>, notes: string)

  /** The three figures `calcularTotalPedido` returns. */
  datatype Totals = Totals(subtotal: real, discount: real, total: real)

  /** The body posted to the order endpoint. */
  datatype OrderRequest = OrderRequest(customerId: int, lines: seq<Line>, notes: string)

  datatype SubmitError = NoCustomer | EmptyCart

  /** The body posted to the registration endpoint. */
  datatype SignUpRequest = SignUpRequest(name: string, email: string, password: string, role: string)

  datatype SignUpError = PasswordMismatch | PasswordTooShort

  const MinPasswordLength := 6

  const SignUpRole := "administrador"

  // ---------------------------------------------------------------- queries

  predicate HasProduct(lines: seq<Line>, id: int) {
    exists k :: 0 <= k < |lines| && lines[k].productId == id
  }

  /** No two lines share a product id: the cart's invariant. */
  predicate DistinctIds(lines: seq<Line>) {
    forall i, j :: 0 <= i < j < |lines| ==> lines[i].productId != lines[j].productId
  }

  /** Sum of the unit prices of the lines for product `id`. */
  function PriceOf(lines: seq<Line>, id: int): real {
    if |lines| == 0 then 0.0
    else (if lines[0].productId == id then lines[0].unitPrice else 0.0) + PriceOf(lines[1..], id)
  }

  /** Sum of the amounts of the lines for product `id`. */
  function AmountOf(lines: seq<Line>, id: int): real {
    if |lines| == 0 then 0.0
    else (if lines[0].productId == id then Amount(lines[0]) else 0.0) + AmountOf(lines[1..], id)
  }

  /** A non-empty cart has a line for `id` exactly when its first line or the rest does. */
  lemma HasProductCons(lines: seq<Line>, id: int)
    requires |lines| > 0
    ensures HasProduct(lines, id) <==> lines[0].productId == id || HasProduct(lines[1..], id)
  {
    if HasProduct(lines[1..], id) {
      var k :| 0 <= k < |lines[1..]| && lines[1..][k].productId == id;
      assert lines[k + 1].productId == id;
    }
    if HasProduct(lines, id) && lines[0].productId != id {
      var k :| 0 <= k < |lines| && lines[k].productId == id;
      assert lines[1..][k - 1].productId == id;
    }
  }

  // ------------------------------------------------------------ operations

  /** The `map` of the existing-product branch: one more unit on every line for `id`. */
  function Bump(lines: seq<Line>, id: int): (r: seq<Line>)
    ensures |r| == |lines|
    ensures forall k :: 0 <= k < |lines| ==>
      r[k] == if lines[k].productId == id then lines[k].(quantity := lines[k].quantity + 1) else lines[k]
  {
    if |lines| == 0 then []
    else
      [if lines[0].productId == id then lines[0].(quantity := lines[0].quantity + 1) else lines[0]]
      + Bump(lines[1..], id)
  }

  /** The line appended for a product not yet in the cart: a snapshot of its id, name and price. */
  function NewLine(p: Product): Line {
    Line(p.id, p.name, p.price, 1)
  }

  /**
   * `agregarProductoAPedido`: a product already in the cart gets one more
   * unit; otherwise a new line with quantity 1 is appended at the end.
   */
  function AddProduct(lines: seq<Line>, p: Product): (r: seq<Line>)
    ensures HasProduct(lines, p.id) ==>
      |r| == |lines| &&
      (forall k :: 0 <= k < |lines| && lines[k].productId == p.id ==>
         r[k] == lines[k].(quantity := lines[k].quantity + 1)) &&
      (forall k :: 0 <= k < |lines| && lines[k].productId != p.id ==> r[k] == lines[k])
    ensures !HasProduct(lines, p.id) ==>
      |r| == |lines| + 1 && r[..|lines|] == lines && r[|lines|] == Line(p.id, p.name, p.price, 1)
    ensures HasProduct(r, p.id)
    ensures DistinctIds(lines) ==> DistinctIds(r)
  {
    if HasProduct(lines, p.id) then
      var r := Bump(lines, p.id);
      assert forall k :: 0 <= k < |r| ==> r[k].productId == lines[k].productId;
      r
    else
      var r := lines + [NewLine(p)];
      assert r[..|lines|] == lines;
      assert r[|lines|].productId == p.id;
      r
  }

  /** `eliminarProductoDePedido`: keep exactly the lines for other products. */
  function RemoveProduct(lines: seq<Line>, id: int): (r: seq<Line>)
    ensures !HasProduct(r, id)
    ensures forall k :: 0 <= k < |r| ==> r[k] in lines
    ensures forall l :: l in lines && l.productId != id ==> l in r
    ensures !HasProduct(lines, id) ==> r == lines
    decreases |lines|
  {
    if |lines| == 0 then []
    else
      var rest := RemoveProduct(lines[1..], id);
      HasProductCons(lines, id);
      if lines[0].productId == id then
        rest
      else
        var r := [lines[0]] + rest;
        assert r[1..] == rest;
        HasProductCons(r, id);
        assert lines == [lines[0]] + lines[1..];
        r
  }

  /** The quantity input's `onChange`: every line for `id` now has quantity `q`. */
  function SetQuantity(lines: seq<Line>, id: int, q: int): (r: seq<Line>)
    ensures |r| == |lines|
    ensures forall k :: 0 <= k < |lines| ==>
      r[k] == if lines[k].productId == id then lines[k].(quantity := q) else lines[k]
  {
    if |lines| == 0 then []
    else
      [if lines[0].productId == id then lines[0].(quantity := q) else lines[0]]
      + SetQuantity(lines[1..], id, q)
  }

  /** `reduce((sum, p) => sum + p.precio_unitario * p.cantidad, acc)`, left to right. */
  function FoldAmounts(acc: real, lines: seq<Line>): real
    decreases |lines|
  {
    if |lines| == 0 then acc else FoldAmounts(acc + Amount(lines[0]), lines[1..])
  }

  /**
   * `calcularTotalPedido`: the subtotal, the discount at the selected
   * customer's percentage (zero when none is selected), and their difference.
   */
  function CartTotals(d: Draft): (t: Totals)
    ensures t.subtotal == Subtotal(d.lines)
    ensures d.customer.None? ==> t.discount == 0.0 && t.total == t.subtotal
    ensures d.customer.Some? ==> t.discount == Discount(Subtotal(d.lines), d.customer.value.discount)
    ensures t.total == t.subtotal - t.discount
  {
    var subtotal := FoldAmounts(0.0, d.lines);
    FoldIsSubtotal(0.0, d.lines);
    var discount := if d.customer.Some? then Discount(subtotal, d.customer.value.discount) else 0.0;
    Totals(subtotal, discount, subtotal - discount)
  }

  /**
   * The guards of `crearPedido`: a customer must be selected (checked
   * first), and the cart must not be empty; only then is a request formed.
   */
  function Submit(d: Draft): (r: Result<OrderRequest, SubmitError>)
    ensures r == Err(NoCustomer) <==> d.customer.None?
    ensures r == Err(EmptyCart) <==> d.customer.Some? && |d.lines| == 0
    ensures r.Ok? <==> d.customer.Some? && |d.lines| > 0
    ensures r.Ok? ==>
      r.value.customerId == d.customer.value.id && r.value.lines == d.lines && r.value.notes == d.notes
  {
    if d.customer.None? then Err(NoCustomer)
    else if |d.lines| == 0 then Err(EmptyCart)
    else Ok(OrderRequest(d.customer.value.id, d.lines, d.notes))
  }

  /**
   * The guards of `handleRegistro`: the confirmation must equal the
   * password (checked first) and the password must have at least six
   * characters; the request always asks for the administrator role.
   */
  function SignUp(name: string, email: string, password: string, confirmation: string)
    : (r: Result<SignUpRequest, SignUpError>)
    ensures r == Err(PasswordMismatch) <==> password != confirmation
    ensures r == Err(PasswordTooShort) <==> password == confirmation && |password| < MinPasswordLength
    ensures r.Ok? <==> password == confirmation && |password| >= MinPasswordLength
    ensures r.Ok? ==> r.value == SignUpRequest(name, email, password, SignUpRole)
  {
    if password != confirmation then Err(PasswordMismatch)
    else if |password| < MinPasswordLength then Err(PasswordTooShort)
    else Ok(SignUpRequest(name, email, password, SignUpRole))
  }

  // ---------------------------------------------------------------- lemmas

  lemma {:induction false} FoldIsSubtotal(acc: real, lines: seq<Line>)
    ensures FoldAmounts(acc, lines) == acc + Subtotal(lines)
    decreases |lines|
  {
    if |lines| > 0 {
      FoldIsSubtotal(acc + Amount(lines[0]), lines[1..]);
    }
  }

  /** Adding one unit of a product raises the subtotal by the price of its line(s). */
  lemma {:induction false} BumpSubtotal(lines: seq<Line>, id: int)
    ensures Subtotal(Bump(lines, id)) == Subtotal(lines) + PriceOf(lines, id)
    decreases |lines|
  {
    if |lines| > 0 {
      BumpSubtotal(lines[1..], id);
      var b := Bump(lines, id);
      assert b[1..] == Bump(lines[1..], id);
    }
  }

  /**
   * Adding a product raises the subtotal by its unit price: the snapshot
   * price of its existing line, or the catalogue price for a new line.
   */
  lemma AddProductSubtotal(lines: seq<Line>, p: Product)
    ensures HasProduct(lines, p.id) ==> Subtotal(AddProduct(lines, p)) == Subtotal(lines) + PriceOf(lines, p.id)
    ensures !HasProduct(lines, p.id) ==> Subtotal(AddProduct(lines, p)) == Subtotal(lines) + p.price
  {
    if HasProduct(lines, p.id) {
      BumpSubtotal(lines, p.id);
    } else {
      SubtotalAppend(lines, [NewLine(p)]);
      assert [NewLine(p)][1..] == [];
    }
  }

  /** Removing a product lowers the subtotal by exactly the amount of its line(s). */
  lemma {:induction false} RemoveProductSubtotal(lines: seq<Line>, id: int)
    ensures Subtotal(RemoveProduct(lines, id)) == Subtotal(lines) - AmountOf(lines, id)
    decreases |lines|
  {
    if |lines| > 0 {
      RemoveProductSubtotal(lines[1..], id);
      if lines[0].productId != id {
        assert ([lines[0]] + RemoveProduct(lines[1..], id))[1..] == RemoveProduct(lines[1..], id);
      }
    }
  }

  /** Setting a quantity replaces the amount of the product's line(s) by `q` times its price. */
  lemma {:induction false} SetQuantitySubtotal(lines: seq<Line>, id: int, q: int)
    ensures Subtotal(SetQuantity(lines, id, q)) == Subtotal(lines) - AmountOf(lines, id) + PriceOf(lines, id) * q as real
  {
    SetQuantityReplacesAmount(lines, id, q);
    PricedAtScales(lines, id, q);
  }

  /** Sum over the lines for `id` of unit price times `q`. */
  function PricedAt(lines: seq<Line>, id: int, q: int): real {
    if |lines| == 0 then 0.0
    else (if lines[0].productId == id then lines[0].unitPrice * q as real else 0.0) + PricedAt(lines[1..], id, q)
  }

  lemma {:induction false} SetQuantityReplacesAmount(lines: seq<Line>, id: int, q: int)
    ensures Subtotal(SetQuantity(lines, id, q)) == Subtotal(lines) - AmountOf(lines, id) + PricedAt(lines, id, q)
    decreases |lines|
  {
    if |lines| > 0 {
      SetQuantityReplacesAmount(lines[1..], id, q);
      var r := SetQuantity(lines, id, q);
      assert r[1..] == SetQuantity(lines[1..], id, q);
    }
  }

  lemma {:induction false} PricedAtScales(lines: seq<Line>, id: int, q: int)
    ensures PricedAt(lines, id, q) == PriceOf(lines, id) * q as real
    decreases |lines|
  {
    if |lines| > 0 {
      PricedAtScales(lines[1..], id, q);
      var p0 := if lines[0].productId == id then lines[0].unitPrice else 0.0;
      assert (p0 + PriceOf(lines[1..], id)) * q as real == p0 * q as real + PriceOf(lines[1..], id) * q as real;
    }
  }

  /** Removing a product just added to a cart without it restores the cart. */
  lemma RemoveUndoesAdd(lines: seq<Line>, p: Product)
    requires !HasProduct(lines, p.id)
    ensures RemoveProduct(AddProduct(lines, p), p.id) == lines
  {
    RemoveAppendedLine(lines, NewLine(p));
  }

  lemma {:induction false} RemoveAppendedLine(lines: seq<Line>, l: Line)
    requires !HasProduct(lines, l.productId)
    ensures RemoveProduct(lines + [l], l.productId) == lines
    decreases |lines|
  {
    if |lines| == 0 {
      assert [l][1..] == [];
      RemoveProductCons([l], l.productId);
    } else {
      assert (lines + [l])[1..] == lines[1..] + [l];
      HasProductCons(lines, l.productId);
      RemoveAppendedLine(lines[1..], l);
      RemoveProductCons(lines + [l], l.productId);
      assert lines == [lines[0]] + lines[1..];
    }
  }

  /** One step of `RemoveProduct`, unfolded. */
  lemma RemoveProductCons(lines: seq<Line>, id: int)
    requires |lines| > 0
    ensures RemoveProduct(lines, id) ==
      (if lines[0].productId == id then [] else [lines[0]]) + RemoveProduct(lines[1..], id)
  {
  }

  /**
   * In a cart with distinct ids, removing the product of line `k` yields
   * the other lines in their original order.
   */
  lemma {:induction false} RemoveKeepsOrder(lines: seq<Line>, k: nat)
    requires DistinctIds(lines) && k < |lines|
    ensures RemoveProduct(lines, lines[k].productId) == lines[..k] + lines[k + 1..]
    decreases |lines|
  {
    var id := lines[k].productId;
    if k == 0 {
      assert !HasProduct(lines[1..], id) by {
        forall j | 0 <= j < |lines[1..]|
          ensures lines[1..][j].productId != id
        {
          assert lines[1..][j] == lines[j + 1];
        }
      }
    } else {
      DistinctTail(lines);
      assert lines[1..][k - 1] == lines[k];
      RemoveKeepsOrder(lines[1..], k - 1);
      assert lines[0].productId != id;
      SpliceCons(lines, k);
    }
  }

  lemma DistinctTail(lines: seq<Line>)
    requires DistinctIds(lines) && |lines| > 0
    ensures DistinctIds(lines[1..])
  {
    forall i, j | 0 <= i < j < |lines[1..]|
      ensures lines[1..][i].productId != lines[1..][j].productId
    {
      assert lines[1..][i] == lines[i + 1] && lines[1..][j] == lines[j + 1];
    }
  }

  lemma SpliceCons<T>(s: seq<T>, k: nat)
    requires 0 < k < |s|
    ensures [s[0]] + (s[1..][..k - 1] + s[1..][k..]) == s[..k] + s[k + 1..]
  {
    assert s[1..][..k - 1] == s[1..k];
    assert s[1..][k..] == s[k + 1..];
    assert [s[0]] + s[1..k] == s[..k];
  }

  /** Removing a product keeps distinct ids distinct. */
  lemma RemovePreservesDistinct(lines: seq<Line>, id: int)
    requires DistinctIds(lines)
    ensures DistinctIds(RemoveProduct(lines, id))
  {
    if HasProduct(lines, id) {
      var k :| 0 <= k < |lines| && lines[k].productId == id;
      RemoveKeepsOrder(lines, k);
      DistinctWithout(lines, k);
    }
  }

  lemma DistinctWithout(lines: seq<Line>, k: nat)
    requires DistinctIds(lines) && k < |lines|
    ensures DistinctIds(lines[..k] + lines[k + 1..])
  {
    var r := lines[..k] + lines[k + 1..];
    forall i, j | 0 <= i < j < |r|
      ensures r[i].productId != r[j].productId
    {
      var i' := if i < k then i else i + 1;
      var j' := if j < k then j else j + 1;
      assert r[i] == lines[i'] && r[j] == lines[j'];
    }
  }

  /** Editing a quantity keeps every id in place, so distinct ids stay distinct. */
  lemma SetQuantityPreservesDistinct(lines: seq<Line>, id: int, q: int)
    requires DistinctIds(lines)
    ensures DistinctIds(SetQuantity(lines, id, q))
  {
    var r := SetQuantity(lines, id, q);
    assert forall k :: 0 <= k < |r| ==> r[k].productId == lines[k].productId;
  }

  /**
   * In a cart with distinct ids, adding a product already present is the
   * same as setting its quantity to one more than it was.
   */
  lemma AddExistingIsIncrement(lines: seq<Line>, p: Product, k: nat)
    requires DistinctIds(lines) && k < |lines| && lines[k].productId == p.id
    ensures AddProduct(lines, p) == SetQuantity(lines, p.id, lines[k].quantity + 1)
  {
    var a := AddProduct(lines, p);
    var s := SetQuantity(lines, p.id, lines[k].quantity + 1);
    forall j | 0 <= j < |lines|
      ensures a[j] == s[j]
    {
      if lines[j].productId == p.id {
        assert j == k;
      }
    }
  }
}
