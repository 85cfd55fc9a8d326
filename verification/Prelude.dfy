/** Small vocabulary shared by every module of the model. */
module Prelude {

  /** A Python `None | value`. */
  datatype Option<+T> = None | Some(value: T) {
    function GetOr(default: T): T {
      match this
      case Some(v) => v
      case None => default
    }
  }

  function RMin(a: real, b: real): real {
    if b < a then b else a
  }

  function RMax(a: real, b: real): real {
    if b > a then b else a
  }

  function RAbs(a: real): real {
    if a < 0.0 then -a else a
  }

  function IMin(a: int, b: int): int {
    if b < a then b else a
  }

  function IMax(a: int, b: int): int {
    if b > a then b else a
  }

  /** Sum of a series, accumulated left to right as Python's `sum` does. */
  function Sum(s: seq<real>): real {
    if s == [] then 0.0 else Sum(s[..|s| - 1]) + s[|s| - 1]
  }

  lemma {:induction false} SumConcat(a: seq<real>, b: seq<real>)
    ensures Sum(a + b) == Sum(a) + Sum(b)
  {
    if b == [] {
      assert a + b == a;
    } else {
      var b' := b[..|b| - 1];
      assert (a + b)[..|a + b| - 1] == a + b';
      SumConcat(a, b');
    }
  }

  /** A sum taken from its other end. */
  lemma SumHead(s: seq<real>)
    requires s != []
    ensures Sum(s) == s[0] + Sum(s[1..])
  {
    assert [s[0]][..0] == [];
    assert s == [s[0]] + s[1..];
    SumConcat([s[0]], s[1..]);
  }

  /** The least integer that is no less than `x`. */
  function Ceil(x: real): (c: int)
    ensures x <= c as real < x + 1.0
  {
    -(-x).Floor
  }

  lemma ConcatAssoc<T>(a: seq<T>, b: seq<T>, c: seq<T>)
    ensures (a + b) + c == a + (b + c)
  {
  }

  /** `k` copies of `x`. */
  function Copies(k: int, x: real): real {
    k as real * x
  }

  lemma CopiesNext(k: int, x: real)
    ensures Copies(0, x) == 0.0 && Copies(k + 1, x) == Copies(k, x) + x
  {
  }

  /** The same element, `n` times. */
  function Repeat<T>(x: T, n: nat): seq<T> {
    seq(n, i => x)
  }

  lemma MulPositive(a: real, b: real)
    requires a > 0.0 && b > 0.0
    ensures a * b > 0.0
  {
  }

  /** Multiplying an inequality by a non-negative factor, on either side, keeps it. */
  lemma MulMono(a: real, b: real, k: real)
    requires a <= b && k >= 0.0
    ensures a * k <= b * k && k * a <= k * b
  {
    assert (b - a) * k >= 0.0;
  }

  lemma ScaleDown(r: real, k: real)
    requires r > 0.0 && 0.0 <= k <= 1.0
    ensures 0.0 <= r * k <= r
    ensures k > 0.0 ==> r * k > 0.0
  {
    assert r * (1.0 - k) >= 0.0;
  }

  /** `r` scaled by a factor that is floored at zero. */
  function ScaleBy(r: real, k: real): real {
    r * RMax(0.0, k)
  }

  lemma ScaleByBound(r: real, k: real)
    requires r > 0.0 && k < 1.0
    ensures 0.0 <= ScaleBy(r, k) <= r
  {
    ScaleDown(r, RMax(0.0, k));
  }

  /** A quotient bound is a product bound. */
  lemma DivLe(a: real, b: real, c: real)
    requires c > 0.0
    ensures a <= b / c <==> a * c <= b
    ensures a < b / c <==> a * c < b
    ensures b / c * c == b
  {
    var q := b / c;
    assert q * c == b;
    if a < q {
      assert (q - a) * c > 0.0;
    } else if a > q {
      assert (a - q) * c > 0.0;
    }
  }

  // ---- sorting ---------------------------------------------------------------------------------

  function Insert<T>(before: (T, T) -> bool, x: T, s: seq<T>): (r: seq<T>)
    ensures multiset(r) == multiset{x} + multiset(s)
    ensures |r| == |s| + 1
  {
    if s == [] || before(x, s[0]) then [x] + s
    else
      assert s == [s[0]] + s[1..];
      [s[0]] + Insert(before, x, s[1..])
  }

  function Sort<T>(before: (T, T) -> bool, s: seq<T>): (r: seq<T>)
    ensures multiset(r) == multiset(s)
    ensures |r| == |s|
  {
    if s == [] then []
    else
      assert s == [s[0]] + s[1..];
      Insert(before, s[0], Sort(before, s[1..]))
  }

  lemma InsertMembers<T>(before: (T, T) -> bool, x: T, s: seq<T>)
    ensures forall y :: y in Insert(before, x, s) <==> y == x || y in s
  {
    var r := Insert(before, x, s);
    forall y ensures y in r <==> y == x || y in s {
      assert y in multiset(r) <==> y == x || y in multiset(s);
    }
  }

  lemma SortMembers<T>(before: (T, T) -> bool, s: seq<T>)
    ensures forall y :: y in Sort(before, s) <==> y in s
  {
    var r := Sort(before, s);
    forall y ensures y in r <==> y in s {
      assert y in multiset(r) <==> y in multiset(s);
    }
  }

  ghost predicate Orders<T(!new)>(before: (T, T) -> bool) {
    && (forall a, b :: before(a, b) || before(b, a))
    && (forall a, b, c :: before(a, b) && before(b, c) ==> before(a, c))
  }

  predicate Ordered<T>(before: (T, T) -> bool, s: seq<T>) {
    forall i, j :: 0 <= i < j < |s| ==> before(s[i], s[j])
  }

  lemma {:induction false} InsertOrders<T(!new)>(before: (T, T) -> bool, x: T, s: seq<T>)
    requires Orders(before) && Ordered(before, s)
    ensures Ordered(before, Insert(before, x, s))
  {
    if s != [] && !before(x, s[0]) {
      var r := Insert(before, x, s[1..]);
      InsertOrders(before, x, s[1..]);
      InsertMembers(before, x, s[1..]);
      forall j | 0 <= j < |r| ensures before(s[0], r[j]) {
        assert r[j] in r;
      }
    }
  }

  lemma {:induction false} SortOrders<T(!new)>(before: (T, T) -> bool, s: seq<T>)
    requires Orders(before)
    ensures Ordered(before, Sort(before, s))
  {
    if s != [] {
      SortOrders(before, s[1..]);
      InsertOrders(before, s[0], Sort(before, s[1..]));
    }
  }
}
