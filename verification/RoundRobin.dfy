/** Dealing out by tickets: a counter goes around a number of deques. */
module RoundRobin {

  /** Where i comes to, going around n places. */
  function Around(i: nat, n: nat): (place: nat)
    requires n > 0
    ensures place < n
  {
    i % n
  }

  /** The walk starts at the first place, goes on to the next, and from the last back to the first. */
  lemma GoesAround(i: nat, n: nat)
    requires n > 0
    ensures Around(0, n) == 0
    ensures Around(i + 1, n) == if Around(i, n) == n - 1 then 0 else Around(i, n) + 1
  {
    var k, r := i / n, i % n;
    DivMod(i, n);
    if r == n - 1 {
      Distribute(n, k, 1);
      DivModUnique(i + 1, n, k + 1, 0);
    } else {
      DivModUnique(i + 1, n, k, r + 1);
    }
    DivModUnique(0, n, 0, 0);
  }

  lemma MulGap(n: nat, d: int)
    ensures d >= 1 ==> n * d >= n
    ensures d <= -1 ==> n * d + n <= 0
  {
  }

  lemma DivModUnique(x: nat, n: nat, k: nat, r: nat)
    requires n > 0 && r < n && x == n * k + r
    ensures x / n == k && x % n == r
  {
    var d := x / n - k;
    assert x == n * (x / n) + x % n;
    assert n * d == r - x % n;
    MulGap(n, d);
  }

  /** The number of tickets below m that name deque q. */
  function Below(m: nat, n: nat, q: nat): nat
    requires q < n
  {
    (m + (n - 1 - q)) / n
  }

  lemma BelowIs(m: nat, n: nat, q: nat, k: nat, r: nat)
    requires q < n && r < n && m == n * k + r
    ensures Below(m, n, q) == k + if r > q then 1 else 0
  {
    if r > q {
      Distribute(n, k, 1);
      DivModUnique(m + (n - 1 - q), n, k + 1, r - 1 - q);
    } else {
      DivModUnique(m + (n - 1 - q), n, k, r + (n - 1 - q));
    }
  }

  lemma BelowNext(m: nat, n: nat, q: nat)
    requires q < n
    ensures Below(m + 1, n, q) == Below(m, n, q) + if Around(m, n) == q then 1 else 0
  {
    hide Below;
    var k, r := m / n, m % n;
    DivMod(m, n);
    BelowIs(m, n, q, k, r);
    if r + 1 < n {
      BelowIs(m + 1, n, q, k, r + 1);
    } else {
      Distribute(n, k, 1);
      BelowIs(m + 1, n, q, k + 1, 0);
    }
  }

  lemma DivMod(m: nat, n: nat)
    requires n > 0
    ensures m == n * (m / n) + m % n
  {
  }

  /** A window of k consecutive tickets names a deque k / n times, or once more. */
  lemma WindowShare(first: nat, k: nat, n: nat, q: nat)
    requires q < n
    ensures var share := Below(first + k, n, q) - Below(first, n, q); k / n <= share <= k / n + 1
  {
    DivOfSum(first + (n - 1 - q), k, n);
    assert first + k + (n - 1 - q) == first + (n - 1 - q) + k;
  }

  lemma DivOfSum(a: nat, k: nat, n: nat)
    requires n > 0
    ensures a / n + k / n <= (a + k) / n <= a / n + k / n + 1
  {
    var x, y, u, v := a / n, a % n, k / n, k % n;
    assert a == n * x + y;
    assert k == n * u + v;
    Distribute(n, x, u);
    if y + v < n {
      DivModUnique(a + k, n, x + u, y + v);
    } else {
      Distribute(n, x + u, 1);
      DivModUnique(a + k, n, x + u + 1, y + v - n);
    }
  }

  lemma Distribute(n: nat, x: nat, y: nat)
    ensures n * (x + y) == n * x + n * y
  {
  }
}
