/** Where the `i`-th element of a circular buffer of `n` slots lies: the remainder of `i` by `n`, said without
    division. */
module Modulo {
  import opened Ring

  function Place(i: nat, n: nat): (p: nat)
    requires n > 0
    ensures p < n
  {
    if i < n then i else Place(i - n, n)
  }

  lemma {:induction false} PlaceIsRemainder(i: nat, n: nat)
    requires n > 0
    ensures Place(i, n) == i % n
  {
    if i >= n {
      PlaceIsRemainder(i - n, n);
      var k := (i - n) / n;
      assert i == (k + 1) * n + (i - n) % n;
      Remainder(i, k + 1, (i - n) % n, n);
    } else {
      Remainder(i, 0, i, n);
    }
  }

  lemma {:induction false} Remainder(x: nat, k: nat, m: nat, n: nat)
    requires m < n && x == k * n + m
    ensures x % n == m
  {
    var q := x / n;
    assert q * n + x % n == k * n + m;
    assert (q - k) * n == m - x % n;
    if q > k {
      Scaled(q - k, 1, n);
    } else if q < k {
      Scaled(-1, q - k, n);
    }
  }

  lemma {:induction false} Scaled(a: int, b: int, n: nat)
    requires a >= b
    ensures a * n >= b * n
  {
  }

  lemma {:induction false} SuccIsRemainder(i: nat, n: nat)
    requires i < n
    ensures Succ(i, n) == (i + 1) % n
  {
  }

  /** Elements less than a whole round apart lie apart. */
  lemma {:induction false} PlacesApart(i: nat, j: nat, n: nat)
    requires i < j < i + n
    ensures Place(i, n) != Place(j, n)
  {
    if i >= n {
      PlacesApart(i - n, j - n, n);
    }
  }

  lemma {:induction false} NextPlace(i: nat, n: nat)
    requires n > 0
    ensures Place(i + 1, n) == Succ(Place(i, n), n)
  {
    if i >= n {
      NextPlace(i - n, n);
    }
  }

  lemma {:induction false} PlaceOfSum(x: nat, c: nat, n: nat)
    requires n > 0
    ensures Place(x + c, n) == Place(Place(x, n) + c, n)
  {
    if x >= n {
      PlaceOfSum(x - n, c, n);
    }
  }
}
