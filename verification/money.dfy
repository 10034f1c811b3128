/**
 * The arithmetic that the client and the server share: the amount of one
 * line, the subtotal of a list of lines, and the percentage discount.
 *
 * `Subtotal` is the reference definition; the client's `reduce` and the
 * server's accumulating loop are each proved equal to it.
 */
module Money {
  import opened Tables

  /** `precio_unitario * cantidad` of one line. */
  function Amount(l: Line): real {
    l.unitPrice * l.quantity as real
  }

  /** Sum of the line amounts. */
  function Subtotal(lines: seq<Line>): real {
    if |lines| == 0 then 0.0 else Amount(lines[0]) + Subtotal(lines[1..])
  }

  /** `(total * pct) / 100`: the discount taken off a total at `pct` percent. */
  function Discount(total: real, pct: real): real {
    (total * pct) / 100.0
  }

  /** Lines whose price and quantity are both non-negative. */
  predicate NonNegativeLines(lines: seq<Line>) {
    forall k :: 0 <= k < |lines| ==> lines[k].unitPrice >= 0.0 && lines[k].quantity >= 0
  }

  /** The subtotal of a concatenation is the sum of the subtotals. */
  lemma {:induction false} SubtotalAppend(a: seq<Line>, b: seq<Line>)
    ensures Subtotal(a + b) == Subtotal(a) + Subtotal(b)
    decreases |a|
  {
    if |a| == 0 {
      assert a + b == b;
    } else {
      assert (a + b)[1..] == a[1..] + b;
      SubtotalAppend(a[1..], b);
    }
  }

  /** Extending a prefix by one line adds exactly that line's amount. */
  lemma SubtotalSnoc(lines: seq<Line>, i: nat)
    requires i < |lines|
    ensures Subtotal(lines[..i + 1]) == Subtotal(lines[..i]) + Amount(lines[i])
  {
    assert lines[..i + 1] == lines[..i] + [lines[i]];
    SubtotalAppend(lines[..i], [lines[i]]);
    assert [lines[i]][1..] == [];
  }

  /** With non-negative prices and quantities the subtotal is non-negative. */
  lemma {:induction false} SubtotalNonNegative(lines: seq<Line>)
    requires NonNegativeLines(lines)
    ensures Subtotal(lines) >= 0.0
    decreases |lines|
  {
    if |lines| > 0 {
      assert lines[0].unitPrice >= 0.0 && lines[0].quantity >= 0;
      assert Amount(lines[0]) >= 0.0;
      assert NonNegativeLines(lines[1..]) by {
        forall k | 0 <= k < |lines[1..]|
          ensures lines[1..][k].unitPrice >= 0.0 && lines[1..][k].quantity >= 0
        {
          assert lines[1..][k] == lines[k + 1];
        }
      }
      SubtotalNonNegative(lines[1..]);
    }
  }

  /**
   * For a percentage between 0 and 100 and a non-negative total, the
   * discount lies in [0, total], so the final amount lies in [0, total].
   * Nothing in the source enforces this range of percentages.
   */
  lemma DiscountWithinTotal(total: real, pct: real)
    requires total >= 0.0 && 0.0 <= pct <= 100.0
    ensures 0.0 <= Discount(total, pct) <= total
    ensures 0.0 <= total - Discount(total, pct) <= total
  {
    assert total * pct <= total * 100.0 by {
      assert total * (100.0 - pct) >= 0.0;
    }
    assert total * pct >= 0.0;
  }

  /** The final amount of an order over well-formed lines lies in [0, subtotal]. */
  lemma FinalAmountWithinSubtotal(lines: seq<Line>, pct: real)
    requires NonNegativeLines(lines) && 0.0 <= pct <= 100.0
    ensures 0.0 <= Subtotal(lines) - Discount(Subtotal(lines), pct) <= Subtotal(lines)
  {
    SubtotalNonNegative(lines);
    DiscountWithinTotal(Subtotal(lines), pct);
  }
}
