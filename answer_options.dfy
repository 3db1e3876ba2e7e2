/**
 * The four answer options of `QuizGame.generateAnswerOptions`: the random offset
 * `(int)(Math.random() * 10 - 5)`, the list that the rejection loop builds from a
 * sequence of such offsets, and `Collections.shuffle` as the library's swap loop with
 * its random indices as input.
 */
module AnswerOptions {
  import opened MathQuestions

  const OptionCount := 4

  predicate Distinct(s: seq<int>) {
    forall i, j :: 0 <= i < j < |s| ==> s[i] != s[j]
  }

  /** Every value of `s` lies in the window the offsets can reach around `correct`. */
  predicate InWindow(s: seq<int>, correct: int) {
    forall x :: x in s ==> correct - 5 <= x <= correct + 4
  }

  predicate OffsetsInRange(offsets: seq<int>) {
    forall k :: 0 <= k < |offsets| ==> -5 <= offsets[k] <= 4
  }

  /** The shape of the options shown on the four buttons. */
  predicate WellFormedOptions(s: seq<int>, correct: int) {
    |s| == OptionCount && Distinct(s) && multiset(s)[correct] == 1 && InWindow(s, correct)
  }

  /** `correct - 5 <= x <= correct + 4`: the values `correct + offset` can take. */
  predicate Near(x: int, correct: int) {
    correct - 5 <= x <= correct + 4
  }

  /**
   * The same shape spelled out for the four buttons, without quantifiers: pairwise
   * different values, one of them the correct answer, all near it.
   */
  predicate FourOptions(s: seq<int>, correct: int) {
    |s| == OptionCount
    && s[0] != s[1] && s[0] != s[2] && s[0] != s[3] && s[1] != s[2] && s[1] != s[3] && s[2] != s[3]
    && (s[0] == correct || s[1] == correct || s[2] == correct || s[3] == correct)
    && Near(s[0], correct) && Near(s[1], correct) && Near(s[2], correct) && Near(s[3], correct)
  }

  /**
   * `(int)(Math.random() * 10 - 5)` where `Math.random()` returned the fraction `u / scale`:
   * Java's cast truncates toward zero.
   */
  function FakeOffset(u: int, scale: int): int
    requires 0 < scale && 0 <= u < scale
  {
    JavaDiv(10 * u - 5 * scale, scale)
  }

  /** For a positive divisor, a quotient is below `k` exactly when the dividend is below `k * d`. */
  lemma QuotientBelow(n: int, d: int, k: int)
    requires d >= 1 && n >= 0
    ensures n / d < k <==> n < k * d
  {
    var q, r := n / d, n % d;
    assert n == q * d + r && 0 <= r < d;
    if q >= k {
      var e := (q - k) * d;
      assert e >= 0;
      assert e == q * d - k * d;
    } else {
      var e := (k - 1 - q) * d;
      assert e >= 0;
      assert e == k * d - d - q * d;
    }
  }

  /** `Math.random()` at least one half: the offset is the quotient itself, in [0, 4]. */
  lemma UpperHalfOffset(u: int, scale: int)
    requires 0 < scale <= 2 * u && u < scale
    ensures 0 <= FakeOffset(u, scale) <= 4
  {
    var n := 10 * u - 5 * scale;
    QuotientBelow(n, scale, 0);
    QuotientBelow(n, scale, 5);
    assert FakeOffset(u, scale) == n / scale;
  }

  /** `Math.random()` below one half: the offset is minus the truncated quotient, in [-5, 0]. */
  lemma LowerHalfOffset(u: int, scale: int)
    requires 0 < scale && 0 <= u && 2 * u < scale
    ensures -5 <= FakeOffset(u, scale) <= 0
    ensures FakeOffset(u, scale) == -5 <==> u == 0
  {
    var m := 5 * scale - 10 * u;
    QuotientBelow(m, scale, 6);
    QuotientBelow(m, scale, 5);
    assert FakeOffset(u, scale) == -(m / scale);
  }

  /**
   * Every offset lies in [-5, 4]; -5 only comes from `Math.random()` returning exactly 0,
   * because truncation maps the whole interval (-1, 1) to 0.
   */
  lemma FakeOffsetRange(u: int, scale: int)
    requires 0 < scale && 0 <= u < scale
    ensures -5 <= FakeOffset(u, scale) <= 4
    ensures FakeOffset(u, scale) == -5 <==> u == 0
  {
    if 2 * u >= scale {
      UpperHalfOffset(u, scale);
    } else {
      LowerHalfOffset(u, scale);
    }
  }

  /** Every offset in [-5, 4] occurs: with `Math.random()` = (v + 5) / 10 the expression yields v. */
  lemma FakeOffsetCovers(v: int)
    requires -5 <= v <= 4
    ensures FakeOffset(v + 5, 10) == v
  {
    if v < 0 {
      ExactQuotient(-v, 10);
    } else if v > 0 {
      ExactQuotient(v, 10);
    }
  }

  /**
   * The rejection loop of `generateAnswerOptions` as a function: starting from `opts`, each
   * offset proposes `correct + offset`, which is appended unless already present, until
   * four options are collected or the offsets run out.
   */
  function Collect(opts: seq<int>, correct: int, offsets: seq<int>): seq<int>
    decreases |offsets|
  {
    if |opts| >= OptionCount || offsets == [] then opts
    else Collect(Step(opts, correct, offsets[0]), correct, offsets[1..])
  }

  /** One iteration of the loop: `correct + offset` is appended unless already present. */
  function Step(opts: seq<int>, correct: int, offset: int): seq<int> {
    var fake := correct + offset;
    if fake in opts then opts else opts + [fake]
  }

  lemma OffsetsTail(offsets: seq<int>)
    requires OffsetsInRange(offsets) && offsets != []
    ensures -5 <= offsets[0] <= 4 && OffsetsInRange(offsets[1..])
  {
    forall k | 0 <= k < |offsets[1..]| ensures -5 <= offsets[1..][k] <= 4 {
      assert offsets[1..][k] == offsets[k + 1];
    }
  }

  /** Appending a value not yet present keeps the list distinct and extends it. */
  lemma AppendNew(opts: seq<int>, fake: int)
    requires Distinct(opts) && fake !in opts
    ensures Distinct(opts + [fake]) && (opts + [fake])[..|opts|] == opts
    ensures Values(opts + [fake]) == Values(opts) + {fake}
  {
  }

  /** One iteration keeps the list distinct, keeps the correct answer and stays in the window. */
  lemma StepKeepsShape(opts: seq<int>, correct: int, offset: int)
    requires Distinct(opts) && correct in opts && InWindow(opts, correct) && -5 <= offset <= 4
    ensures var next := Step(opts, correct, offset);
      Distinct(next) && correct in next && InWindow(next, correct)
      && |opts| <= |next| <= |opts| + 1 && next[..|opts|] == opts
  {
    var fake := correct + offset;
    if fake !in opts {
      AppendNew(opts, fake);
    }
  }

  /**
   * Whatever offsets in [-5, 4] are drawn, the loop keeps a distinct list that starts with
   * what it started with, holds the correct answer, stays in the window and never exceeds four.
   */
  lemma {:induction false} CollectKeepsShape(opts: seq<int>, correct: int, offsets: seq<int>)
    requires Distinct(opts) && correct in opts && |opts| <= OptionCount
    requires InWindow(opts, correct) && OffsetsInRange(offsets)
    ensures var r := Collect(opts, correct, offsets);
      Distinct(r) && correct in r && |opts| <= |r| <= OptionCount && InWindow(r, correct) && r[..|opts|] == opts
    decreases |offsets|
  {
    if |opts| < OptionCount && offsets != [] {
      OffsetsTail(offsets);
      var next := Step(opts, correct, offsets[0]);
      StepKeepsShape(opts, correct, offsets[0]);
      CollectKeepsShape(next, correct, offsets[1..]);
      var r := Collect(next, correct, offsets[1..]);
      assert r[..|opts|] == r[..|next|][..|opts|];
    }
  }

  /** The values of a sequence, as a set. */
  function Values(s: seq<int>): set<int> {
    set x | x in s
  }

  /** The candidate values `correct + offset` of a sequence of offsets. */
  function Candidates(correct: int, offsets: seq<int>): set<int>
    decreases |offsets|
  {
    if offsets == [] then {} else {correct + offsets[0]} + Candidates(correct, offsets[1..])
  }

  lemma {:induction false} DistinctValues(s: seq<int>)
    requires Distinct(s)
    ensures |Values(s)| == |s|
    decreases |s|
  {
    if s != [] {
      var init := s[..|s| - 1];
      assert Values(s) == Values(init) + {s[|s| - 1]};
      assert s[|s| - 1] !in Values(init);
      DistinctValues(init);
    }
  }

  /** A distinct sequence holds each of its values exactly once. */
  lemma {:induction false} DistinctOnce(s: seq<int>, x: int)
    requires Distinct(s) && x in s
    ensures multiset(s)[x] == 1
    decreases |s|
  {
    assert s == [s[0]] + s[1..];
    if s[0] == x {
      assert x !in s[1..];
    } else {
      DistinctOnce(s[1..], x);
    }
  }

  lemma SubsetCard(a: set<int>, b: set<int>)
    ensures |a| <= |a + b|
  {
    var extra := b - a;
    assert a + b == a + extra;
    assert a !! extra;
  }

  /** One iteration adds the proposed value to the values held, and keeps them distinct. */
  lemma StepValues(opts: seq<int>, correct: int, offsets: seq<int>)
    requires Distinct(opts) && offsets != []
    ensures var next := Step(opts, correct, offsets[0]);
      Distinct(next) && |next| <= |opts| + 1
      && Values(next) + Candidates(correct, offsets[1..]) == Values(opts) + Candidates(correct, offsets)
  {
    var fake := correct + offsets[0];
    assert Candidates(correct, offsets) == {fake} + Candidates(correct, offsets[1..]);
    if fake in opts {
      assert fake in Values(opts);
    } else {
      AppendNew(opts, fake);
    }
  }

  /** A full list of four distinct options already holds at least four values. */
  lemma FullValues(opts: seq<int>, more: set<int>)
    requires Distinct(opts) && |opts| == OptionCount
    ensures |Values(opts) + more| >= OptionCount
  {
    DistinctValues(opts);
    SubsetCard(Values(opts), more);
  }

  /**
   * How many options the loop collects: as many distinct values as the start list and the
   * candidates hold together, but never more than four.
   */
  lemma {:induction false} CollectCount(opts: seq<int>, correct: int, offsets: seq<int>)
    requires Distinct(opts) && |opts| <= OptionCount
    ensures var n := |Values(opts) + Candidates(correct, offsets)|;
      |Collect(opts, correct, offsets)| == if n < OptionCount then n else OptionCount
    decreases |offsets|
  {
    if |opts| >= OptionCount {
      FullValues(opts, Candidates(correct, offsets));
    } else if offsets == [] {
      DistinctValues(opts);
      assert Values(opts) + Candidates(correct, offsets) == Values(opts);
    } else {
      StepValues(opts, correct, offsets);
      CollectCount(Step(opts, correct, offsets[0]), correct, offsets[1..]);
    }
  }

  /**
   * The source's loop ends within the supplied offsets exactly when they propose at least
   * three distinct values other than the correct answer.
   */
  lemma LoopEndsIffThreeNewValues(correct: int, offsets: seq<int>)
    ensures |Collect([correct], correct, offsets)| == OptionCount
        <==> |Candidates(correct, offsets) - {correct}| >= 3
  {
    CollectCount([correct], correct, offsets);
    var c := Candidates(correct, offsets);
    assert Values([correct]) == {correct};
    assert {correct} + c == {correct} + (c - {correct});
    assert {correct} !! (c - {correct});
  }

  /**
   * The `while (options.size() < 4)` loop of `generateAnswerOptions`: starting from the
   * correct answer, each drawn offset proposes `correct + offset`, added unless already
   * present, until four options are collected.
   */
  method BuildOptions(correct: int, offsets: seq<int>) returns (list: seq<int>)
    requires OffsetsInRange(offsets) && |Collect([correct], correct, offsets)| == OptionCount
    ensures list == Collect([correct], correct, offsets)
    ensures |list| == OptionCount && Distinct(list) && list[0] == correct && InWindow(list, correct)
  {
    list := [correct];
    var i := 0;
    while |list| < OptionCount
      invariant 0 <= i <= |offsets|
      invariant Collect(list, correct, offsets[i..]) == Collect([correct], correct, offsets)
      decreases |offsets| - i
    {
      assert offsets[i..][1..] == offsets[i + 1..];
      var fake := correct + offsets[i];
      if fake !in list {
        list := list + [fake];
      }
      i := i + 1;
    }
    CollectKeepsShape([correct], correct, offsets);
  }

  /** Exchange of two positions, the step of `Collections.shuffle`. */
  function Swap(s: seq<int>, i: int, j: int): (t: seq<int>)
    requires 0 <= i < |s| && 0 <= j < |s|
    ensures |t| == |s| && multiset(t) == multiset(s)
  {
    s[i := s[j]][j := s[i]]
  }

  lemma SwapDistinct(s: seq<int>, i: int, j: int)
    requires 0 <= i < |s| && 0 <= j < |s| && Distinct(s)
    ensures Distinct(Swap(s, i, j))
  {
  }

  /**
   * The random indices `Collections.shuffle` draws for a list of `n` elements: for
   * `i` = n down to 2 it draws `nextInt(i)`, so the k-th draw lies in [0, n - k).
   */
  predicate ShuffleDraws(n: nat, draws: seq<int>) {
    |draws| == (if n == 0 then 0 else n - 1) && forall k :: 0 <= k < |draws| ==> 0 <= draws[k] < n - k
  }

  /** The swap loop `for (i = size; i > 1; i--) swap(list, i - 1, nextInt(i))` from step `i` on. */
  function ShuffleFrom(s: seq<int>, i: nat, draws: seq<int>): seq<int>
    requires i <= |s| && ShuffleDraws(|s|, draws)
    decreases i
  {
    if i <= 1 then s else ShuffleFrom(Swap(s, i - 1, draws[|s| - i]), i - 1, draws)
  }

  function Shuffled(s: seq<int>, draws: seq<int>): seq<int>
    requires ShuffleDraws(|s|, draws)
  {
    ShuffleFrom(s, |s|, draws)
  }

  lemma {:induction false} ShuffleFromPermutes(s: seq<int>, i: nat, draws: seq<int>)
    requires i <= |s| && ShuffleDraws(|s|, draws)
    ensures |ShuffleFrom(s, i, draws)| == |s|
    ensures multiset(ShuffleFrom(s, i, draws)) == multiset(s)
    ensures Distinct(s) ==> Distinct(ShuffleFrom(s, i, draws))
    decreases i
  {
    if i > 1 {
      if Distinct(s) {
        SwapDistinct(s, i - 1, draws[|s| - i]);
      }
      ShuffleFromPermutes(Swap(s, i - 1, draws[|s| - i]), i - 1, draws);
    }
  }

  /** The shuffle only reorders: same length, same multiset, and distinct values stay distinct. */
  lemma ShuffledPermutes(s: seq<int>, draws: seq<int>)
    requires ShuffleDraws(|s|, draws)
    ensures |Shuffled(s, draws)| == |s| && multiset(Shuffled(s, draws)) == multiset(s)
    ensures Distinct(s) ==> Distinct(Shuffled(s, draws))
  {
    ShuffleFromPermutes(s, |s|, draws);
  }

  /** `Collections.shuffle(list)`, with the indices `rnd.nextInt(i)` as input. */
  method Shuffle(s: seq<int>, draws: seq<int>) returns (r: seq<int>)
    requires ShuffleDraws(|s|, draws)
    ensures r == Shuffled(s, draws)
  {
    r := s;
    var i := |s|;
    while i > 1
      invariant 0 <= i <= |s| && |r| == |s|
      invariant ShuffleFrom(r, i, draws) == Shuffled(s, draws)
    {
      r := Swap(r, i - 1, draws[|s| - i]);
      i := i - 1;
    }
  }

  /** Any reordering of a well-formed list, with no value repeated, is well formed. */
  lemma PermutedOptionsWellFormed(built: seq<int>, shown: seq<int>, correct: int)
    requires Distinct(built) && correct in built && |built| == OptionCount && InWindow(built, correct)
    requires multiset(shown) == multiset(built) && Distinct(shown)
    ensures WellFormedOptions(shown, correct)
  {
    assert |shown| == |multiset(shown)| == |multiset(built)| == |built|;
    assert correct in multiset(shown);
    DistinctOnce(shown, correct);
    forall x | x in shown ensures correct - 5 <= x <= correct + 4 {
      assert x in multiset(shown);
      assert x in multiset(built);
      assert x in built;
    }
  }

  /**
   * The options the buttons receive: four distinct values, the correct answer among them
   * exactly once, all within [correct - 5, correct + 4], and the same multiset as the
   * list the loop built.
   */
  lemma BuiltOptionsWellFormed(correct: int, offsets: seq<int>, draws: seq<int>)
    requires OffsetsInRange(offsets)
    requires |Collect([correct], correct, offsets)| == OptionCount
    requires ShuffleDraws(OptionCount, draws)
    ensures WellFormedOptions(Shuffled(Collect([correct], correct, offsets), draws), correct)
    ensures multiset(Shuffled(Collect([correct], correct, offsets), draws)) == multiset(Collect([correct], correct, offsets))
  {
    var built := Collect([correct], correct, offsets);
    CollectKeepsShape([correct], correct, offsets);
    ShuffledPermutes(built, draws);
    PermutedOptionsWellFormed(built, Shuffled(built, draws), correct);
  }

  /** The spelled-out shape of the four buttons is exactly `WellFormedOptions`. */
  lemma FourOptionsMeaning(s: seq<int>, correct: int)
    ensures FourOptions(s, correct) <==> WellFormedOptions(s, correct)
  {
    if FourOptions(s, correct) {
      assert Distinct(s);
      assert correct in s;
      DistinctOnce(s, correct);
      forall x | x in s ensures correct - 5 <= x <= correct + 4 {
        var k :| 0 <= k < |s| && s[k] == x;
        assert Near(s[k], correct);
      }
    }
    if WellFormedOptions(s, correct) {
      assert correct in multiset(s);
      assert s[0] in s && s[1] in s && s[2] in s && s[3] in s;
    }
  }

  /** Offsets a random source can produce, enough of them for the option loop to finish, and valid shuffle indices. */
  predicate OptionDraws(correct: int, offsets: seq<int>, shuffle: seq<int>) {
    OffsetsInRange(offsets) && |Candidates(correct, offsets) - {correct}| >= 3
    && ShuffleDraws(OptionCount, shuffle)
  }

  /** The options `generateAnswerOptions` puts on the buttons for these draws. */
  function OptionsFor(correct: int, offsets: seq<int>, shuffle: seq<int>): seq<int>
    requires OptionDraws(correct, offsets, shuffle)
  {
    LoopEndsIffThreeNewValues(correct, offsets);
    Shuffled(Collect([correct], correct, offsets), shuffle)
  }

  /**
   * What the buttons receive is well formed and is a permutation of the list the loop
   * collected.
   */
  lemma OptionsForWellFormed(correct: int, offsets: seq<int>, shuffle: seq<int>)
    requires OptionDraws(correct, offsets, shuffle)
    ensures WellFormedOptions(OptionsFor(correct, offsets, shuffle), correct)
    ensures multiset(OptionsFor(correct, offsets, shuffle)) == multiset(Collect([correct], correct, offsets))
  {
    LoopEndsIffThreeNewValues(correct, offsets);
    BuiltOptionsWellFormed(correct, offsets, shuffle);
  }

  /** The options on the buttons, in the spelled-out form the game session keeps as its invariant. */
  lemma OptionsForFour(correct: int, offsets: seq<int>, shuffle: seq<int>)
    requires OptionDraws(correct, offsets, shuffle)
    ensures FourOptions(OptionsFor(correct, offsets, shuffle), correct)
  {
    OptionsForWellFormed(correct, offsets, shuffle);
    FourOptionsMeaning(OptionsFor(correct, offsets, shuffle), correct);
  }

  /**
   * The list `generateAnswerOptions` builds in its loop and then shuffles, for the drawn
   * offsets and shuffle indices.
   */
  method GenerateOptions(correct: int, offsets: seq<int>, shuffle: seq<int>) returns (list: seq<int>)
    requires OptionDraws(correct, offsets, shuffle)
    ensures list == OptionsFor(correct, offsets, shuffle)
  {
    LoopEndsIffThreeNewValues(correct, offsets);
    list := BuildOptions(correct, offsets);
    list := Shuffle(list, shuffle);
  }
}
