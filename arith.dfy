/** Facts about integer division and multiplication that the solver does not find unaided. */
module Arith {
  lemma DivModUnique(x: int, d: int, q: int, r: int)
    requires d > 0 && 0 <= r < d && x == q * d + r
    ensures x / d == q && x % d == r
  {
    var q', r' := x / d, x % d;
    assert x == q' * d + r';
    if q' > q {
      MulLeft(q + 1, q', d);
    } else if q' < q {
      MulLeft(q' + 1, q, d);
    }
  }

  lemma MulLeft(a: int, b: int, c: int)
    requires 0 <= c && a <= b
    ensures a * c <= b * c
  {
  }

  lemma QuotientBelow(k: nat, d: nat, n: nat)
    requires 0 < d && k < d * n
    ensures k / d < n
  {
    if k / d >= n {
      MulLeft(n, k / d, d);
      assert false;
    }
  }

  /** Regrouping `layer * (columns * rows) + (row * columns + column)` around `columns`. */
  lemma Regroup(layer: int, columns: int, rows: int, row: int, column: int)
    ensures layer * (columns * rows) + (row * columns + column) == (layer * rows + row) * columns + column
    ensures layer * (columns * rows) + (row * columns + column) == layer * rows * columns + row * columns + column
  {
  }

  /** Adding an even number keeps the parity. */
  lemma ParityOfSum(e: int, m: int)
    ensures (2 * e + m) % 2 == m % 2
  {
    DivModUnique(2 * e + m, 2, e + m / 2, m % 2);
  }

  /** A slot inside a rows x columns grid is numbered below columns * rows. */
  lemma SlotBelow(row: nat, column: nat, columns: nat, rows: nat)
    requires row < rows && column < columns
    ensures row * columns + column < columns * rows
  {
    MulLeft(row + 1, rows, columns);
  }

  /** Twice a count, cut to 16 bits, is even and at most twice the count. */
  lemma TruncatedDouble(n: nat)
    ensures (n * 2) % 0x1_0000 % 2 == 0 && (n * 2) % 0x1_0000 / 2 <= n
  {
    var q := (n * 2) / 0x1_0000;
    assert n * 2 == 0x1_0000 * q + (n * 2) % 0x1_0000;
  }
}
