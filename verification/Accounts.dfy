/** Tables of real amounts by account, and their totals in whatever order they are walked. */
module Accounts {

  type Address = nat

  ghost function Total(m: map<Address, real>): real
    decreases |m|
  {
    if m == map[] then 0.0
    else
      var k :| k in m;
      m[k] + Total(m - {k})
  }

  /** Any key may be split off first. */
  lemma {:induction false} TotalSplit(m: map<Address, real>, k: Address)
    requires k in m
    ensures Total(m) == m[k] + Total(m - {k})
    decreases |m|
  {
    var p :| p in m && Total(m) == m[p] + Total(m - {p});
    if p != k {
      TotalSplit(m - {p}, k);
      TotalSplit(m - {k}, p);
      assert m - {p} - {k} == m - {k} - {p};
    }
  }

  /** Writing one entry changes the total by the difference. */
  lemma TotalUpdate(m: map<Address, real>, k: Address, v: real)
    ensures Total(m[k := v]) == Total(m) + v - (if k in m then m[k] else 0.0)
  {
    var n := m[k := v];
    TotalSplit(n, k);
    assert n - {k} == m - {k};
    if k in m {
      TotalSplit(m, k);
    } else {
      assert m - {k} == m;
    }
  }

  lemma {:induction false} TotalAdd(m: map<Address, real>, x: map<Address, real>, y: map<Address, real>)
    requires m.Keys == x.Keys == y.Keys
    requires forall k | k in m :: m[k] == x[k] + y[k]
    ensures Total(m) == Total(x) + Total(y)
    decreases |m|
  {
    if m == map[] {
      assert x == map[] && y == map[];
    } else {
      var k :| k in m;
      TotalSplit(m, k);
      TotalSplit(x, k);
      TotalSplit(y, k);
      TotalAdd(m - {k}, x - {k}, y - {k});
    }
  }

  /** Tables without a common account add up. */
  lemma {:induction false} TotalDisjoint(x: map<Address, real>, y: map<Address, real>)
    requires forall b | b in x :: b !in y
    ensures Total(x + y) == Total(x) + Total(y)
    decreases x.Keys
  {
    if x == map[] {
      assert x + y == y;
    } else {
      var k :| k in x;
      hide Total;
      var rest, both := x - {k}, x + y;
      WithoutOne(x, y, k, rest, both);
      TotalSplit(x, k);
      TotalSplit(both, k);
      TotalDisjoint(rest, y);
    }
  }

  lemma WithoutOne(x: map<Address, real>, y: map<Address, real>, k: Address, rest: map<Address, real>, both: map<Address, real>)
    requires k in x && k !in y && rest == x - {k} && both == x + y
    ensures k in both && both[k] == x[k] && both - {k} == rest + y
  {
    forall b ensures b in both - {k} <==> b in rest + y {
      assert b in both <==> b in x || b in y;
    }
  }

  predicate IsWhole(x: real) { x == x.Floor as real }

  lemma WholeSum(x: real, y: real)
    requires IsWhole(x) && IsWhole(y)
    ensures IsWhole(x + y)
  {
    assert x + y == (x.Floor + y.Floor) as real;
  }

  /** Whole amounts have a whole total. */
  lemma {:induction false} TotalWhole(m: map<Address, real>)
    requires forall k | k in m :: IsWhole(m[k])
    ensures IsWhole(Total(m))
    decreases m.Keys
  {
    if m != map[] {
      var k :| k in m;
      hide Total, IsWhole;
      TotalSplit(m, k);
      TotalWhole(m - {k});
      WholeSum(m[k], Total(m - {k}));
    }
  }

  /** `u` is `a` times `v`. Naming the product keeps it out of the sums below. */
  ghost predicate Times(u: real, a: real, v: real) {
    u == a * v
  }

  /** The first entry and the rest of a table, both scaled. */
  lemma TimesAdd(a: real, p: real, q: real, r: real, t: real, x: real, y: real)
    requires Times(p, a, q) && Times(r, a, t) && x == p + r && y == q + t
    ensures Times(x, a, y)
  {
  }

  lemma TimesNothing(a: real)
    ensures Times(0.0, a, 0.0)
  {
  }

  /** Scaling every entry scales the total. */
  lemma {:induction false} TotalTimes(m: map<Address, real>, a: real, x: map<Address, real>)
    requires m.Keys == x.Keys
    requires forall k | k in m :: Times(m[k], a, x[k])
    ensures Times(Total(m), a, Total(x))
    decreases |m|
  {
    hide Times;
    if m == map[] {
      TimesNothing(a);
      assert x == map[];
    } else {
      var k :| k in m;
      TotalSplit(m, k);
      TotalSplit(x, k);
      TotalTimes(m - {k}, a, x - {k});
      TimesAdd(a, m[k], x[k], Total(m - {k}), Total(x - {k}), Total(m), Total(x));
    }
  }

  lemma {:induction false} TotalMonotone(x: map<Address, real>, y: map<Address, real>)
    requires x.Keys == y.Keys
    requires forall k | k in x :: x[k] <= y[k]
    ensures Total(x) <= Total(y)
    decreases |x|
  {
    if x == map[] {
      assert y == map[];
    } else {
      var k :| k in x;
      TotalSplit(x, k);
      TotalSplit(y, k);
      TotalMonotone(x - {k}, y - {k});
    }
  }

  lemma {:induction false} TotalNonNegative(m: map<Address, real>)
    requires forall k | k in m :: m[k] >= 0.0
    ensures Total(m) >= 0.0
    ensures forall k | k in m :: m[k] <= Total(m)
    decreases |m|
  {
    forall k | k in m ensures m[k] <= Total(m) {
      TotalSplit(m, k);
      TotalNonNegative(m - {k});
    }
    if m != map[] {
      var k :| k in m;
      assert m[k] <= Total(m);
    }
  }
}
