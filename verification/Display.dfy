/** The size formatter of the status display. */
module Display {
  import opened Helpers

  const UINT64: nat := 0x1_0000_0000_0000_0000
  const SUFFIXES := "kMGTP"

  /** `Overrun` is the out-of-range index that ends the program. */
  datatype Formatted = Bytes(size: nat) | Scaled(value: real, decimals: nat, suffix: char) | Overrun

  function Pow(b: nat, e: nat): nat {
    if e == 0 then 1 else b * Pow(b, e - 1)
  }

  /** The suffix index that `size` calls for: it lies between two neighbouring powers. */
  ghost predicate Fits(size: nat, unit: nat, suffix: nat) {
    Pow(unit, suffix + 1) <= size < Pow(unit, suffix + 2)
  }

  lemma DivUnique(n: nat, q: nat, d: nat, r: nat)
    requires d > 0 && r < d && n == q * d + r
    ensures n / d == q
  {
    Multiple(n / d - q, d);
  }

  lemma Regroup(a: int, unit: int, b: int, div: int)
    ensures (a * unit + b) * div == a * (div * unit) + b * div
    ensures (unit - b) * div == div * unit - b * div
  {
  }

  /** Quotient and remainder of two divisions make those of one. */
  lemma Combine(size: nat, div: nat, unit: nat, q: nat, r: nat, a: nat, b: nat)
    requires size == q * div + r && r < div
    requires q == a * unit + b && b < unit
    ensures 0 <= b * div + r < div * unit
    ensures size == a * (div * unit) + (b * div + r)
  {
    Multiple(unit - b, div);
    Regroup(a, unit, b, div);
  }

  lemma Division(n: nat, d: nat) returns (q: nat, r: nat)
    requires d > 0
    ensures n == q * d + r && r < d && n / d == q
  {
    q, r := n / d, n % d;
  }

  /** Dividing the quotient once more is dividing by one more factor. */
  lemma DivideAgain(size: nat, div: nat, unit: nat)
    requires div > 0 && unit > 0
    ensures div * unit > 0 && size / div / unit == size / (div * unit)
  {
    var q, r := Division(size, div);
    var a, b := Division(q, unit);
    Combine(size, div, unit, q, r, a, b);
    DivUnique(size, a, div * unit, b * div + r);
  }

  lemma {:induction false} PowMonotone(b: nat, e: nat, f: nat)
    requires b >= 1 && e <= f
    ensures 1 <= Pow(b, e) <= Pow(b, f)
  {
    if f > 0 {
      PowMonotone(b, if e == f then e - 1 else e, f - 1);
      Multiple(b, Pow(b, f - 1));
    }
  }

  lemma SuffixUnique(size: nat, unit: nat, i: nat, j: nat)
    requires unit >= 1 && Fits(size, unit, i) && Fits(size, unit, j)
    ensures i == j
  {
    PowMonotone(unit, if i < j then i + 2 else j + 2, if i < j then j + 1 else if j < i then i + 1 else i + 2);
  }

  /** The suffixes run out at the sixth power. */
  lemma RunsOut(size: nat, unit: nat, suffix: nat)
    requires unit >= 1 && Fits(size, unit, suffix)
    ensures size >= Pow(unit, |SUFFIXES| + 1) <==> suffix >= |SUFFIXES|
  {
    if suffix >= |SUFFIXES| {
      PowMonotone(unit, |SUFFIXES| + 1, suffix + 1);
    } else {
      PowMonotone(unit, suffix + 2, |SUFFIXES| + 1);
    }
  }

  /** The result for the divisor `div`, the power that the suffix names. */
  function Rendered(size: nat, div: nat, suffix: nat): Formatted
    requires div > 0
  {
    var value := size as real / div as real;
    if suffix >= |SUFFIXES| then Overrun
    else Scaled(value, if value >= 100.0 then 0 else 1, SUFFIXES[suffix])
  }

  /** The quotient reaches the unit exactly when the number reaches the product. */
  lemma Quotient(size: nat, div: nat, unit: nat)
    requires div > 0 && unit > 0
    ensures size / div >= unit <==> size >= div * unit
  {
    Multiple(size / div - unit, div);
    Regroup(0, size / div, unit, div);
  }

  /** The loop.  The divisor is a power of the unit, and no product leaves the
      unsigned 64-bit range. */
  method Divisor(size: nat, unit: nat) returns (div: nat, suffix: nat)
    requires 1 < unit <= size < UINT64
    ensures div == Pow(unit, suffix + 1) && Fits(size, unit, suffix)
  {
    div, suffix := unit, 0;
    PowOne(unit);
    var n := size / unit;
    while n >= unit
      invariant 1 <= div == Pow(unit, suffix + 1)
      invariant div <= size
      invariant n == size / div
      decreases size - div
    {
      DivideAgain(size, div, unit);
      Quotient(size, div, unit);
      Multiple(unit - 1, div);
      Regroup(0, unit, 1, div);
      assert div * unit < UINT64;
      div := div * unit;
      suffix := suffix + 1;
      n := n / unit;
    }
    Quotient(size, div, unit);
  }

  lemma PowOne(b: nat)
    ensures Pow(b, 1) == b
  {
    assert Pow(b, 1) == b * Pow(b, 0);
  }

  /** Any unit may be given. */
  method FormatSize(size: nat, unit: nat) returns (r: Formatted)
    requires size < UINT64 && 1 < unit < UINT64
    ensures size < unit ==> r == Bytes(size)
    ensures size >= unit ==> exists suffix: nat :: IsRendered(size, unit, suffix, r)
    ensures r == Overrun <==> size >= Pow(unit, |SUFFIXES| + 1)
    ensures r.Scaled? ==> exists i: nat :: i < 5 && Names(r, i) && ScaledBy(r, size, unit, i)
  {
    if size < unit {
      PowOne(unit);
      PowMonotone(unit, 1, |SUFFIXES| + 1);
      return Bytes(size);
    }
    var div, suffix := Divisor(size, unit);
    RunsOut(size, unit, suffix);
    PowMonotone(unit, 0, suffix + 1);
    r := Rendered(size, div, suffix);
    assert IsRendered(size, unit, suffix, r);
    if r.Scaled? {
      ScaledRight(r, size, unit, suffix);
    }
  }

  /** The suffix is that of the power `i + 1` of the unit. */
  predicate Names(r: Formatted, i: nat)
    requires r.Scaled?
  {
    match i
    case 0 => r.suffix == 'k'
    case 1 => r.suffix == 'M'
    case 2 => r.suffix == 'G'
    case 3 => r.suffix == 'T'
    case 4 => r.suffix == 'P'
    case _ => false
  }

  /** The value times that power is the size; it is at least one and below the unit,
      and shown with a decimal unless it has three digits. */
  predicate ScaledBy(r: Formatted, size: nat, unit: nat, i: nat)
    requires r.Scaled?
  {
    && r.value * Pow(unit, i + 1) as real == size as real && 1.0 <= r.value < unit as real
    && (r.value >= 100.0 ==> r.decimals == 0) && (r.value < 100.0 ==> r.decimals == 1)
  }

  lemma ScaledRight(r: Formatted, size: nat, unit: nat, suffix: nat)
    requires IsRendered(size, unit, suffix, r) && r.Scaled?
    ensures suffix < 5 && Names(r, suffix) && ScaledBy(r, size, unit, suffix)
  {
    NamesRight(suffix);
    var div := Pow(unit, suffix + 1);
    ScaledInside(size, unit, div);
    assert Pow(unit, suffix + 2) == unit * div;
  }

  lemma NamesRight(suffix: nat)
    requires suffix < |SUFFIXES|
    ensures forall value, decimals :: Names(Scaled(value, decimals, SUFFIXES[suffix]), suffix)
  {
  }

  lemma ScaledInside(size: nat, unit: nat, div: nat)
    requires div > 0
    ensures div <= size < unit * div ==> size as real / div as real * div as real == size as real && 1.0 <= size as real / div as real < unit as real
  {
    if div <= size < unit * div {
      assert (unit * div) as real == unit as real * div as real;
      Between(size as real, div as real, unit as real);
    }
  }

  lemma Between(size: real, div: real, unit: real)
    requires div > 0.0 && div <= size < unit * div
    ensures size / div * div == size && 1.0 <= size / div < unit
  {
    var q := size / div;
    assert q * div == size;
    TimesKeepsOrder(q, 1.0, div);
    TimesKeepsOrder(q, unit, div);
  }

  lemma TimesKeepsOrder(a: real, b: real, d: real)
    requires d > 0.0
    ensures a < b <==> a * d < b * d
  {
  }

  ghost predicate IsRendered(size: nat, unit: nat, suffix: nat, r: Formatted) {
    Fits(size, unit, suffix) && Pow(unit, suffix + 1) > 0 && r == Rendered(size, Pow(unit, suffix + 1), suffix)
  }
}
