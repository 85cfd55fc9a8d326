/**
 * Expected shortfall (signald/risk/tail.py). The historical estimator sorts, slices and averages;
 * this module proves that what it computes is a coherent risk measure.
 */
module Tail {
  import opened Prelude

  // ---- the estimator ---------------------------------------------------------------------------

  predicate Descending(s: seq<real>) {
    forall i, j :: 0 <= i < j < |s| ==> s[i] >= s[j]
  }

  predicate AtLeast(a: real, b: real) {
    a >= b
  }

  /** `sorted(losses, reverse=True)`. */
  function SortDescending(s: seq<real>): (t: seq<real>)
    ensures |t| == |s| && multiset(t) == multiset(s)
  {
    Sort(AtLeast, s)
  }

  lemma HeadBag(s: seq<real>)
    requires s != []
    ensures multiset(s) == multiset{s[0]} + multiset(s[1..])
  {
    assert s == [s[0]] + s[1..];
  }

  predicate AtMost(s: seq<real>, b: real) {
    forall i :: 0 <= i < |s| ==> s[i] <= b
  }

  lemma SortDescends(s: seq<real>)
    ensures Descending(SortDescending(s))
  {
    SortOrders(AtLeast, s);
  }

  /** `x` shared out over `k`. */
  function Per(x: real, k: nat): real
    requires k > 0
  {
    x / k as real
  }

  lemma PerLe(x: real, y: real, k: nat)
    requires k > 0
    ensures x <= Per(y, k) <==> Copies(k, x) <= y
    ensures Copies(k, Per(y, k)) == y
  {
    DivLe(x, y, k as real);
  }

  lemma PerMono(x: real, y: real, k: nat)
    requires k > 0 && x <= y
    ensures Per(x, k) <= Per(y, k)
  {
    PerLe(Per(x, k), y, k);
    PerLe(Per(x, k), x, k);
  }

  lemma PerAdd(x: real, y: real, k: nat)
    requires k > 0
    ensures Per(x + y, k) == Per(x, k) + Per(y, k)
  {
    var r := k as real;
    var a, b, c := (x + y) / r, x / r, y / r;
    assert (a - b - c) * r == 0.0;
  }

  lemma PerCopies(x: real, k: nat)
    requires k > 0
    ensures Per(Copies(k, x), k) == x
  {
    var r := k as real;
    assert (r * x / r - x) * r == 0.0;
  }

  function Average(s: seq<real>): real
    requires s != []
  {
    Per(Sum(s), |s|)
  }

  predicate IsProbability(c: real) {
    0.0 < c < 1.0
  }

  /** How many of the worst losses are averaged. */
  function TailCount(c: real, n: nat): (k: nat)
    requires IsProbability(c) && n > 0
    ensures 1 <= k <= n
  {
    TailShare(c, n);
    IMax(1, Ceil((1.0 - c) * n as real))
  }

  lemma TailShare(c: real, n: nat)
    requires IsProbability(c)
    ensures 0.0 <= (1.0 - c) * n as real <= n as real
  {
    if n > 0 { ScaleDown(n as real, 1.0 - c); }
    assert n as real * (1.0 - c) == (1.0 - c) * n as real;
  }

  /** The tail's share of `n` observations; it need not be whole. */
  function TailShareOf(c: real, n: nat): real {
    (1.0 - c) * n as real
  }

  /** The count is the least positive number of observations that covers the tail's share of them. */
  lemma TailCountIsLeast(c: real, n: nat, k: nat)
    requires IsProbability(c) && n > 0
    ensures TailCount(c, n) <= k <==> k >= 1 && k as real >= TailShareOf(c, n)
  {
  }

  predicate IsLossSeries(losses: seq<real>) {
    losses != [] && forall i :: 0 <= i < |losses| ==> losses[i] >= 0.0
  }

  /** The mean of the worst `k` losses. */
  function WorstMean(losses: seq<real>, k: nat): real
    requires 1 <= k <= |losses|
  {
    Average(SortDescending(losses)[..k])
  }

  /** `es_historical`: `None` where the source raises. */
  function EsHistorical(losses: seq<real>, confidence: real): Option<real> {
    if !IsProbability(confidence) || !IsLossSeries(losses) then None
    else Some(WorstMean(losses, TailCount(confidence, |losses|)))
  }

  // ---- the reference: the worst choice of k losses -----------------------------------------------

  /** The greatest total of any `k` of the losses, with no sorting. */
  function Worst(s: seq<real>, k: nat): real
    requires k <= |s|
  {
    if k == 0 then 0.0
    else if k == |s| then s[0] + Worst(s[1..], k - 1)
    else RMax(s[0] + Worst(s[1..], k - 1), Worst(s[1..], k))
  }

  lemma WorstCons(x: real, s: seq<real>, k: nat)
    requires 1 <= k <= |s| + 1
    ensures Worst([x] + s, k) ==
      if k == |s| + 1 then x + Worst(s, k - 1) else RMax(x + Worst(s, k - 1), Worst(s, k))
  {
    assert ([x] + s)[1..] == s;
  }

  /** The order of the first two losses does not matter. */
  lemma WorstSwap(x: real, y: real, s: seq<real>, k: nat)
    requires k <= |s| + 2
    ensures Worst([x] + ([y] + s), k) == Worst([y] + ([x] + s), k)
  {
    if k > 0 {
      WorstCons(x, [y] + s, k);
      WorstCons(y, [x] + s, k);
      if k >= 2 {
        WorstCons(y, s, k - 1);
        WorstCons(x, s, k - 1);
      }
      if k <= |s| + 1 {
        WorstCons(y, s, k);
        WorstCons(x, s, k);
      }
    }
  }

  lemma WorstHead(x: real, a: seq<real>, b: seq<real>, k: nat)
    requires |a| == |b| && 1 <= k <= |a| + 1 && Worst(a, k - 1) == Worst(b, k - 1)
    requires k <= |a| ==> Worst(a, k) == Worst(b, k)
    ensures Worst([x] + a, k) == Worst([x] + b, k)
  {
    WorstCons(x, a, k);
    WorstCons(x, b, k);
  }

  lemma InsertBelow(x: real, s: seq<real>)
    requires s != [] && x < s[0]
    ensures s == [s[0]] + s[1..]
    ensures Insert(AtLeast, x, s) == [s[0]] + Insert(AtLeast, x, s[1..])
  {
  }

  lemma {:induction false} WorstInsert(x: real, s: seq<real>, k: nat)
    requires k <= |s| + 1
    ensures Worst(Insert(AtLeast, x, s), k) == Worst([x] + s, k)
  {
    if s != [] && x < s[0] && k > 0 {
      var y, rest, t := s[0], s[1..], Insert(AtLeast, x, s[1..]);
      InsertBelow(x, s);
      WorstInsert(x, rest, k - 1);
      if k <= |rest| + 1 { WorstInsert(x, rest, k); }
      WorstHead(y, t, [x] + rest, k);
      WorstSwap(x, y, rest, k);
    }
  }

  lemma {:induction false} WorstSort(s: seq<real>, k: nat)
    requires k <= |s|
    ensures Worst(SortDescending(s), k) == Worst(s, k)
  {
    if k > 0 {
      var x, rest, t := s[0], s[1..], SortDescending(s[1..]);
      assert SortDescending(s) == Insert(AtLeast, x, t);
      WorstSort(rest, k - 1);
      if k <= |rest| { WorstSort(rest, k); }
      WorstInsert(x, t, k);
      WorstHead(x, t, rest, k);
      assert s == [x] + rest;
    }
  }

  lemma SumTake(s: seq<real>, k: nat)
    requires k < |s|
    ensures Sum(s[..k + 1]) == Sum(s[..k]) + s[k]
  {
    assert s[..k + 1][..k] == s[..k];
  }

  /** On a sorted series the worst `k` are the first `k`. */
  lemma {:induction false} WorstOfSorted(s: seq<real>, k: nat)
    requires k <= |s| && Descending(s)
    ensures Worst(s, k) == Sum(s[..k])
  {
    if k > 0 {
      var rest := s[1..];
      assert Descending(rest);
      WorstOfSorted(rest, k - 1);
      assert s[..k][1..] == rest[..k - 1];
      SumHead(s[..k]);
      if k < |s| {
        WorstOfSorted(rest, k);
        SumTake(rest, k - 1);
      }
    }
  }

  // ---- choices -------------------------------------------------------------------------------

  /** The losses marked in `marks`. */
  function Chosen(s: seq<real>, marks: seq<bool>): (c: seq<real>)
    requires |marks| == |s|
    ensures |c| <= |s|
  {
    if s == [] then []
    else (if marks[0] then [s[0]] else []) + Chosen(s[1..], marks[1..])
  }

  predicate Chooses(s: seq<real>, marks: seq<bool>, k: nat) {
    |marks| == |s| && |Chosen(s, marks)| == k
  }

  lemma SumChosen(s: seq<real>, marks: seq<bool>)
    requires |marks| == |s| && s != []
    ensures Sum(Chosen(s, marks)) == (if marks[0] then s[0] else 0.0) + Sum(Chosen(s[1..], marks[1..]))
  {
    var rest := Chosen(s[1..], marks[1..]);
    SumConcat(if marks[0] then [s[0]] else [], rest);
    assert [s[0]][..0] == [];
  }

  lemma {:induction false} NoChoiceIsWorse(s: seq<real>, marks: seq<bool>, k: nat)
    requires k <= |s| && Chooses(s, marks, k)
    ensures Sum(Chosen(s, marks)) <= Worst(s, k)
  {
    if s != [] {
      SumChosen(s, marks);
      if marks[0] { NoChoiceIsWorse(s[1..], marks[1..], k - 1); } else { NoChoiceIsWorse(s[1..], marks[1..], k); }
      if k == 0 { ChoiceOfNone(s, marks); }
    }
  }

  lemma ChoiceOfNone(s: seq<real>, marks: seq<bool>)
    requires Chooses(s, marks, 0)
    ensures Sum(Chosen(s, marks)) == 0.0
  {
  }

  lemma {:induction false} WorstIsChosen(s: seq<real>, k: nat) returns (marks: seq<bool>)
    requires k <= |s|
    ensures Chooses(s, marks, k) && Sum(Chosen(s, marks)) == Worst(s, k)
  {
    if s == [] {
      marks := [];
    } else {
      var take := k > 0 && (k == |s| || s[0] + Worst(s[1..], k - 1) >= Worst(s[1..], k));
      var rest := WorstIsChosen(s[1..], if take then k - 1 else k);
      marks := [take] + rest;
      assert marks[1..] == rest;
      SumChosen(s, marks);
    }
  }

  ghost predicate WorstAmongChoices(losses: seq<real>, k: nat, mean: real)
    requires k > 0
  {
    && (forall marks :: Chooses(losses, marks, k) ==> Average(Chosen(losses, marks)) <= mean)
    && (exists marks :: Chooses(losses, marks, k) && Average(Chosen(losses, marks)) == mean)
  }

  lemma WorstMeanIsPer(losses: seq<real>, k: nat)
    requires 1 <= k <= |losses|
    ensures WorstMean(losses, k) == Per(Worst(losses, k), k)
  {
    WorstSort(losses, k);
    SortDescends(losses);
    WorstOfSorted(SortDescending(losses), k);
  }

  /**
   * What sorting, slicing and averaging computes: no choice of `k` of the losses has a greater
   * mean, and some choice attains it.
   */
  lemma WorstMeanIsWorst(losses: seq<real>, k: nat)
    requires 1 <= k <= |losses|
    ensures WorstAmongChoices(losses, k, WorstMean(losses, k))
  {
    WorstMeanIsPer(losses, k);
    forall marks | Chooses(losses, marks, k) ensures Average(Chosen(losses, marks)) <= WorstMean(losses, k) {
      NoChoiceIsWorse(losses, marks, k);
      PerMono(Sum(Chosen(losses, marks)), Worst(losses, k), k);
    }
    var marks := WorstIsChosen(losses, k);
    assert Chooses(losses, marks, k);
  }

  // ---- coherence ---------------------------------------------------------------------------------

  lemma HeadIsGreatest(s: seq<real>, x: real)
    requires Descending(s) && x in multiset(s)
    ensures s != [] && x <= s[0]
  {
    assert x in s;
  }

  lemma TailBags(a: seq<real>, b: seq<real>)
    requires a != [] && b != [] && a[0] == b[0] && multiset(a) == multiset(b)
    ensures multiset(a[1..]) == multiset(b[1..])
  {
    HeadBag(a);
    HeadBag(b);
    assert multiset(a[1..]) == multiset(a) - multiset{a[0]};
    assert multiset(b[1..]) == multiset(b) - multiset{b[0]};
  }

  lemma HeadsAgree(a: seq<real>, b: seq<real>)
    requires Descending(a) && Descending(b) && multiset(a) == multiset(b) && a != []
    ensures b != [] && a[0] == b[0]
  {
    assert a[0] in multiset(a);
    HeadIsGreatest(b, a[0]);
    assert b[0] in multiset(b);
    HeadIsGreatest(a, b[0]);
  }

  lemma {:induction false} SortedUnique(a: seq<real>, b: seq<real>)
    requires Descending(a) && Descending(b) && multiset(a) == multiset(b)
    ensures a == b
  {
    if a == [] {
      assert |multiset(b)| == 0;
    } else {
      HeadsAgree(a, b);
      TailBags(a, b);
      SortedUnique(a[1..], b[1..]);
      assert a == [a[0]] + a[1..] && b == [b[0]] + b[1..];
    }
  }

  lemma SameBagSameDomain(a: seq<real>, b: seq<real>)
    requires multiset(a) == multiset(b)
    ensures |a| == |b| && (IsLossSeries(a) ==> IsLossSeries(b))
  {
    assert |a| == |multiset(a)| == |multiset(b)| == |b|;
    if IsLossSeries(a) {
      forall i | 0 <= i < |b| ensures b[i] >= 0.0 {
        assert b[i] in multiset(b) && b[i] in multiset(a);
        assert b[i] in a;
      }
    }
  }

  /** Order carries no risk: any permutation of the losses has the same shortfall. */
  lemma PermutationInvariant(a: seq<real>, b: seq<real>, confidence: real)
    requires multiset(a) == multiset(b)
    ensures EsHistorical(a, confidence) == EsHistorical(b, confidence)
  {
    SameBagSameDomain(a, b);
    SameBagSameDomain(b, a);
    SortDescends(a);
    SortDescends(b);
    SortedUnique(SortDescending(a), SortDescending(b));
  }

  lemma {:induction false} WorstMonotone(a: seq<real>, b: seq<real>, k: nat)
    requires |a| == |b| && k <= |a| && forall i :: 0 <= i < |a| ==> a[i] <= b[i]
    ensures Worst(a, k) <= Worst(b, k)
  {
    if k > 0 {
      WorstMonotone(a[1..], b[1..], k - 1);
      if k < |a| { WorstMonotone(a[1..], b[1..], k); }
    }
  }

  function Plus(a: seq<real>, b: seq<real>): (c: seq<real>)
    requires |a| == |b|
    ensures |c| == |a| && forall i :: 0 <= i < |a| ==> c[i] == a[i] + b[i]
  {
    seq(|a|, i requires 0 <= i < |a| => a[i] + b[i])
  }

  lemma {:induction false} WorstSubadditive(a: seq<real>, b: seq<real>, k: nat)
    requires |a| == |b| && k <= |a|
    ensures Worst(Plus(a, b), k) <= Worst(a, k) + Worst(b, k)
  {
    if k > 0 {
      assert Plus(a, b)[1..] == Plus(a[1..], b[1..]);
      WorstSubadditive(a[1..], b[1..], k - 1);
      if k < |a| { WorstSubadditive(a[1..], b[1..], k); }
    }
  }

  /** Losses that are worse day by day have a shortfall at least as large. */
  lemma Monotone(a: seq<real>, b: seq<real>, confidence: real)
    requires |a| == |b| && forall i :: 0 <= i < |a| ==> a[i] <= b[i]
    requires EsHistorical(a, confidence).Some?
    ensures EsHistorical(b, confidence).Some?
    ensures EsHistorical(a, confidence).value <= EsHistorical(b, confidence).value
  {
    var k := TailCount(confidence, |a|);
    assert forall i :: 0 <= i < |b| ==> b[i] >= a[i] >= 0.0;
    WorstMonotone(a, b, k);
    WorstMeanIsPer(a, k);
    WorstMeanIsPer(b, k);
    PerMono(Worst(a, k), Worst(b, k), k);
  }

  /** Diversification never costs: the shortfall of the pooled book is within the sum of the parts. */
  lemma Subadditive(a: seq<real>, b: seq<real>, confidence: real)
    requires |a| == |b| && EsHistorical(a, confidence).Some? && EsHistorical(b, confidence).Some?
    ensures EsHistorical(Plus(a, b), confidence).Some?
    ensures EsHistorical(Plus(a, b), confidence).value
         <= EsHistorical(a, confidence).value + EsHistorical(b, confidence).value
  {
    var k := TailCount(confidence, |a|);
    WorstSubadditive(a, b, k);
    WorstMeanIsPer(a, k);
    WorstMeanIsPer(b, k);
    WorstMeanIsPer(Plus(a, b), k);
    PerMono(Worst(Plus(a, b), k), Worst(a, k) + Worst(b, k), k);
    PerAdd(Worst(a, k), Worst(b, k), k);
  }

  /** The mean of the first `k` of a descending series falls as `k` grows. */
  lemma PrefixMeanFalls(s: seq<real>, k: nat)
    requires 1 <= k < |s| && Descending(s)
    ensures Average(s[..k + 1]) <= Average(s[..k])
  {
    SumTake(s, k);
    PrefixAbove(s, k, s[k]);
    AverageStep(Sum(s[..k]), s[k], k);
  }

  lemma {:induction false} PrefixAbove(s: seq<real>, k: nat, x: real)
    requires k <= |s| && forall i :: 0 <= i < k ==> s[i] >= x
    ensures Sum(s[..k]) >= Copies(k, x)
  {
    CopiesNext(0, x);
    if k == 0 {
      assert s[..0] == [];
    } else {
      PrefixAbove(s, k - 1, x);
      SumTake(s, k - 1);
      CopiesNext(k - 1, x);
    }
  }

  /** Adding a value no larger than the average cannot raise it. */
  lemma AverageStep(t: real, x: real, k: nat)
    requires k >= 1 && t >= Copies(k, x)
    ensures Per(t + x, k + 1) <= Per(t, k)
  {
    var a, b := Per(t, k), Per(t + x, k + 1);
    PerLe(x, t, k);
    PerLe(a, t, k);
    PerLe(b, t + x, k + 1);
    CopiesNext(k, a);
    if b > a { CopiesMono(k + 1, a, b); }
  }

  lemma CopiesMono(k: nat, x: real, y: real)
    requires k >= 1 && x < y
    ensures Copies(k, x) < Copies(k, y)
  {
    assert (y - x) * k as real > 0.0;
  }

  lemma {:induction false} PrefixMeanAntitone(s: seq<real>, j: nat, k: nat)
    requires 1 <= j <= k <= |s| && Descending(s)
    ensures Average(s[..k]) <= Average(s[..j])
  {
    if j < k {
      PrefixMeanAntitone(s, j, k - 1);
      PrefixMeanFalls(s, k - 1);
    }
  }

  lemma {:induction false} SumOfSort(a: seq<real>)
    ensures Sum(SortDescending(a)) == Sum(a)
  {
    if a != [] {
      SumOfSort(a[1..]);
      SumHead(a);
      SumInsert(a[0], SortDescending(a[1..]));
    }
  }

  lemma {:induction false} SumInsert(x: real, s: seq<real>)
    ensures Sum(Insert(AtLeast, x, s)) == x + Sum(s)
  {
    SumConcat([x], s);
    assert [x][..0] == [];
    if s != [] && x < s[0] {
      var t := Insert(AtLeast, x, s[1..]);
      SumInsert(x, s[1..]);
      SumHead(s);
      SumHead([s[0]] + t);
    }
  }

  /** The shortfall lies between the mean loss and the worst loss. */
  lemma BetweenMeanAndMax(losses: seq<real>, confidence: real, m: real)
    requires EsHistorical(losses, confidence).Some?
    requires m in losses && AtMost(losses, m)
    ensures Average(losses) <= EsHistorical(losses, confidence).value <= m
  {
    var s, k := SortDescending(losses), TailCount(confidence, |losses|);
    SumOfSort(losses);
    SortDescends(losses);
    assert s[..|s|] == s;
    PrefixMeanAntitone(s, k, |s|);
    PrefixMeanAntitone(s, 1, k);
    FirstIsGreatest(losses, m);
  }

  lemma FirstIsGreatest(losses: seq<real>, m: real)
    requires m in losses && AtMost(losses, m)
    ensures Average(SortDescending(losses)[..1]) <= m
  {
    var s := SortDescending(losses);
    assert s[0] in multiset(losses);
    assert s[0] in losses;
    assert s[..1] == [s[0]] && [s[0]][..0] == [];
    assert Sum([s[0]]) == s[0];
    PerCopies(s[0], 1);
  }

  /** A higher confidence looks deeper into the tail: the shortfall never falls. */
  lemma ConfidenceMonotone(losses: seq<real>, c: real, d: real)
    requires IsLossSeries(losses) && IsProbability(c) && IsProbability(d) && c <= d
    ensures EsHistorical(losses, c).value <= EsHistorical(losses, d).value
  {
    TailCountAntitone(c, d, |losses|);
    SortDescends(losses);
    PrefixMeanAntitone(SortDescending(losses), TailCount(d, |losses|), TailCount(c, |losses|));
  }

  lemma TailCountAntitone(c: real, d: real, n: nat)
    requires IsProbability(c) && IsProbability(d) && c <= d && n > 0
    ensures TailCount(d, n) <= TailCount(c, n)
  {
    MulMono(1.0 - d, 1.0 - c, n as real);
    CeilingMonotone((1.0 - d) * n as real, (1.0 - c) * n as real);
  }

  lemma CeilingMonotone(x: real, y: real)
    requires x <= y
    ensures Ceil(x) <= Ceil(y)
  {
    assert (-y).Floor <= (-x).Floor;
  }

  function Times(f: real, x: real): real {
    f * x
  }

  lemma TimesAdd(f: real, x: real, y: real)
    ensures Times(f, x + y) == Times(f, x) + Times(f, y) && Times(f, 0.0) == 0.0
  {
  }

  function Levered(s: seq<real>, f: real): (t: seq<real>)
    ensures |t| == |s| && forall i :: 0 <= i < |s| ==> t[i] == Times(f, s[i])
  {
    seq(|s|, i requires 0 <= i < |s| => Times(f, s[i]))
  }

  function Raised(s: seq<real>, c: real): (t: seq<real>)
    ensures |t| == |s| && forall i :: 0 <= i < |s| ==> t[i] == s[i] + c
  {
    seq(|s|, i requires 0 <= i < |s| => s[i] + c)
  }

  lemma {:induction false} WorstRaised(s: seq<real>, c: real, k: nat)
    requires k <= |s|
    ensures Worst(Raised(s, c), k) == Worst(s, k) + Copies(k, c)
  {
    CopiesNext(0, c);
    if k > 0 {
      assert Raised(s, c)[1..] == Raised(s[1..], c);
      WorstRaised(s[1..], c, k - 1);
      CopiesNext(k - 1, c);
      if k < |s| { WorstRaised(s[1..], c, k); }
    }
  }

  /** A certain extra loss adds exactly itself. */
  lemma TranslationInvariant(losses: seq<real>, c: real, confidence: real)
    requires c >= 0.0 && EsHistorical(losses, confidence).Some?
    ensures EsHistorical(Raised(losses, c), confidence) == Some(EsHistorical(losses, confidence).value + c)
  {
    var k := TailCount(confidence, |losses|);
    WorstRaised(losses, c, k);
    WorstMeanIsPer(losses, k);
    WorstMeanIsPer(Raised(losses, c), k);
    PerAdd(Worst(losses, k), Copies(k, c), k);
    PerCopies(c, k);
  }

  lemma {:induction false} WorstLevered(s: seq<real>, f: real, k: nat)
    requires k <= |s| && f >= 0.0
    ensures Worst(Levered(s, f), k) == Times(f, Worst(s, k))
  {
    if k > 0 {
      var t := s[1..];
      assert Levered(s, f)[1..] == Levered(t, f);
      WorstLevered(t, f, k - 1);
      TimesAdd(f, s[0], Worst(t, k - 1));
      if k < |s| {
        WorstLevered(t, f, k);
        TimesMax(s[0] + Worst(t, k - 1), Worst(t, k), f);
      }
    } else {
      TimesAdd(f, 0.0, 0.0);
    }
  }

  lemma TimesMax(a: real, b: real, f: real)
    requires f >= 0.0
    ensures RMax(Times(f, a), Times(f, b)) == Times(f, RMax(a, b))
  {
    if a <= b { MulMono(a, b, f); } else { MulMono(b, a, f); }
  }

  lemma TimesPer(f: real, w: real, k: nat)
    requires k > 0
    ensures Per(Times(f, w), k) == Times(f, Per(w, k))
  {
    var r := k as real;
    assert (f * w / r - f * (w / r)) * r == 0.0;
  }

  lemma LeveredLosses(losses: seq<real>, f: real)
    requires f >= 0.0 && IsLossSeries(losses)
    ensures IsLossSeries(Levered(losses, f))
  {
    forall i | 0 <= i < |losses| ensures Levered(losses, f)[i] >= 0.0 { MulMono(0.0, losses[i], f); }
  }

  /** Leverage scales the shortfall with it. */
  lemma PositivelyHomogeneous(losses: seq<real>, f: real, confidence: real)
    requires f >= 0.0 && EsHistorical(losses, confidence).Some?
    ensures EsHistorical(Levered(losses, f), confidence) == Some(Times(f, EsHistorical(losses, confidence).value))
  {
    var k := TailCount(confidence, |losses|);
    LeveredLosses(losses, f);
    WorstLevered(losses, f, k);
    WorstMeanIsPer(losses, k);
    WorstMeanIsPer(Levered(losses, f), k);
    TimesPer(f, Worst(losses, k), k);
  }

  // ---- the estimate --------------------------------------------------------------------------------

  datatype Estimator = Historical | Parametric | Stress

  datatype ESResult = ESResult(
    valuePct: real, estimator: Estimator, flagged: bool, windowDays: nat,
    historical: real, parametric: real, stress: real)

  datatype StressGrid = StressGrid(gapPct: real, haltPct: real)

  /** `es_stress` given its volatility shock: the worst of the shocks at a clamped weight. */
  function EsStress(volShock: real, grid: StressGrid, weight: real): real {
    var share := RMin(1.0, RMax(0.0, weight));
    RMax(RMax(volShock, grid.gapPct * share), grid.haltPct * share)
  }

  /**
   * `es_estimate` on its three components; `parametric`, `volShock` and `sigma` come from the
   * normal quantile and the sample deviation, which are not part of this model.
   */
  function EsEstimate(losses: seq<real>, confidence: real, sigma: real, parametric: real, volShock: real,
                      grid: StressGrid, weight: real, minObservations: nat): Option<ESResult>
  {
    if !IsProbability(confidence) then None
    else if losses != [] && EsHistorical(losses, confidence).None? then None
    else
      var historical := if losses == [] then 0.0 else EsHistorical(losses, confidence).value;
      var stress := EsStress(volShock, grid, weight);
      var value := RMax(RMax(historical, parametric), stress);
      var estimator := if stress >= value then Stress else if parametric >= value then Parametric else Historical;
      Some(ESResult(value, estimator, |losses| < minObservations || sigma <= 0.0, |losses|,
                    historical, parametric, stress))
  }

  function Component(r: ESResult, e: Estimator): real {
    match e
    case Historical => r.historical
    case Parametric => r.parametric
    case Stress => r.stress
  }

  /** The stress component is the worst of the three shocks, at a weight cut to between none and all. */
  lemma StressIsWorstShock(volShock: real, grid: StressGrid, weight: real)
    ensures var stress := EsStress(volShock, grid, weight);
      exists share ::
        && 0.0 <= share <= 1.0 && (0.0 <= weight <= 1.0 ==> share == weight)
        && (weight < 0.0 ==> share == 0.0) && (weight > 1.0 ==> share == 1.0)
        && stress >= volShock && stress >= Times(grid.gapPct, share) && stress >= Times(grid.haltPct, share)
        && (stress == volShock || stress == Times(grid.gapPct, share) || stress == Times(grid.haltPct, share))
  {
    var share := RMin(1.0, RMax(0.0, weight));
    assert EsStress(volShock, grid, weight)
      == RMax(RMax(volShock, Times(grid.gapPct, share)), Times(grid.haltPct, share));
  }

  /**
   * When there is an estimate, and what it is made of: the confidence is a probability and no loss is
   * negative, the components are those of the three estimators, and a thin or flat history flags it.
   */
  lemma EstimateIsMadeOf(losses: seq<real>, confidence: real, sigma: real, parametric: real, volShock: real,
                         grid: StressGrid, weight: real, minObservations: nat)
    ensures var r := EsEstimate(losses, confidence, sigma, parametric, volShock, grid, weight, minObservations);
      && (r.Some? <==> 0.0 < confidence < 1.0 && forall i :: 0 <= i < |losses| ==> losses[i] >= 0.0)
      && (r.Some? ==>
            && Some(r.value.historical) == (if losses == [] then Some(0.0) else EsHistorical(losses, confidence))
            && r.value.parametric == parametric && r.value.stress == EsStress(volShock, grid, weight)
            && r.value.windowDays == |losses|
            && (r.value.flagged <==> |losses| < minObservations || sigma <= 0.0))
      && (r.Some? && r.value.estimator == Historical ==> parametric < r.value.valuePct)
  {
  }

  /**
   * The estimate dominates every component and is the one it names; ties go to stress first. With
   * any history it therefore also dominates the mean loss.
   */
  lemma EstimateDominates(losses: seq<real>, confidence: real, sigma: real, parametric: real, volShock: real,
                          grid: StressGrid, weight: real, minObservations: nat)
    requires EsEstimate(losses, confidence, sigma, parametric, volShock, grid, weight, minObservations).Some?
    ensures var r := EsEstimate(losses, confidence, sigma, parametric, volShock, grid, weight, minObservations).value;
            && (forall e: Estimator :: Component(r, e) <= r.valuePct)
            && r.valuePct == Component(r, r.estimator)
            && (r.stress == r.valuePct <==> r.estimator == Stress)
            && r.valuePct >= volShock
            && (losses != [] ==> Average(losses) <= r.valuePct)
  {
    if losses != [] {
      var m := Greatest(losses);
      BetweenMeanAndMax(losses, confidence, m);
    }
  }

  function Greatest(s: seq<real>): (m: real)
    requires s != []
    ensures m in s && forall i :: 0 <= i < |s| ==> s[i] <= m
  {
    if |s| == 1 then s[0]
    else
      var m := Greatest(s[1..]);
      assert s == [s[0]] + s[1..];
      RMax(s[0], m)
  }
}
