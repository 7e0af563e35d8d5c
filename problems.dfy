/** Problem generation: one random arithmetic problem from the current settings,
    and a round of problems with distinct results plus a shuffled answer tray.

    Randomness is an input. Each generator call reads a sequence of rolls
    (`Roll(rolls, k)`, 0 when the sequence is shorter); roll 0 picks the
    operation and roll 1 + i the i-th drawn number. A draw
    `Math.floor(Math.random() * (max - min + 1)) + min` can produce exactly the
    integers of the interval `Outcomes(min, max)`, and the retry loop that
    rejects 0 ends on one of its non-zero members; `Draw` picks that member
    with a roll. */
module Problems {
  import opened Util
  import opened GameConstants

  datatype Operator = Plus | Minus | Times | Divide

  /** The operation string a problem carries; `×` and `÷` as the (mis-encoded) bytes the game writes. */
  function Label(op: Operator): string {
    match op
    case Plus => "+"
    case Minus => "-"
    case Times => "\U{00C3}\U{2014}"
    case Divide => "\U{00C3}\U{00B7}"
  }

  lemma LabelsDistinct()
    ensures forall a: Operator, b: Operator :: a != b ==> Label(a) != Label(b)
  {
  }

  /** The `switch` on the chosen operation name: None takes the default branch. */
  function OperatorFor(name: string): Option<Operator> {
    if name == "addition" then Some(Plus)
    else if name == "subtraction" then Some(Minus)
    else if name == "multiplication" then Some(Times)
    else if name == "division" then Some(Divide)
    else None
  }

  /** The settings panel's four options name the four operators, each exactly once. */
  lemma OperationsNameEveryOperator()
    ensures OperatorFor(Operations[0].value) == Some(Plus) && OperatorFor(Operations[1].value) == Some(Minus)
    ensures OperatorFor(Operations[2].value) == Some(Times) && OperatorFor(Operations[3].value) == Some(Divide)
    ensures forall i, j :: 0 <= i < j < |Operations| ==> OperatorFor(Operations[i].value) != OperatorFor(Operations[j].value)
  {
  }

  /** A name has an operator exactly when it is the value of one of the panel's options. */
  lemma OperatorForKnowsOnlyTheOptions(name: string)
    ensures OperatorFor(name).Some? <==> exists i :: 0 <= i < |Operations| && Operations[i].value == name
  {
    if name == Operations[0].value {
    } else if name == Operations[1].value {
    } else if name == Operations[2].value {
    } else if name == Operations[3].value {
    } else {
      assert forall i :: 0 <= i < |Operations| ==> Operations[i].value != name;
    }
  }

  datatype Problem = Problem(parts: seq<int>, result: int, op: Operator)
  datatype ProblemTile = ProblemTile(id: int, problem: Problem)
  datatype AnswerTile = AnswerTile(id: int, value: int)

  datatype GameSettings = GameSettings(
    minNumber: int,
    maxNumber: int,
    problemCount: int,
    enabledOperations: seq<string>,
    variableCount: int)

  const DefaultSettings: GameSettings := GameSettings(1, 10, 4, ["addition"], 2)

  /** What the generator needs: positive bounds and at least one term. Every
      settings value the game can hold has this (a stored 0 or a non-number
      falls back to the default through `|| default`). */
  predicate GeneratorReady(s: GameSettings) {
    s.minNumber >= 1 && s.maxNumber >= 1 && s.variableCount >= 1
  }

  /** The "adjusting difficulty" step after a short round: five more on the upper bound. */
  function Widen(s: GameSettings): (w: GameSettings)
    ensures w.maxNumber == s.maxNumber + 5 && w.(maxNumber := s.maxNumber) == s
    ensures GeneratorReady(s) ==> GeneratorReady(w)
  {
    s.(maxNumber := s.maxNumber + 5)
  }

  // ---------------------------------------------------------------------
  // Arithmetic of a problem

  function Apply(op: Operator, a: int, b: int): int
    requires op != Divide
  {
    match op
    case Plus => a + b
    case Minus => a - b
    case Times => a * b
  }

  /** `xs.reduce((a, b) => a op b, acc)`. */
  function FoldLeft(op: Operator, acc: int, xs: seq<int>): int
    requires op != Divide
    decreases |xs|
  {
    if xs == [] then acc else FoldLeft(op, Apply(op, acc, xs[0]), xs[1..])
  }

  lemma {:induction false} FoldLeftSnoc(op: Operator, acc: int, xs: seq<int>, x: int)
    requires op != Divide
    ensures FoldLeft(op, acc, xs + [x]) == Apply(op, FoldLeft(op, acc, xs), x)
    decreases |xs|
  {
    if xs != [] {
      assert (xs + [x])[1..] == xs[1..] + [x];
      FoldLeftSnoc(op, Apply(op, acc, xs[0]), xs[1..], x);
    }
  }

  /** What remains of the first part after subtracting the others in turn. */
  function Remainder(parts: seq<int>): int
    requires |parts| >= 1
  {
    FoldLeft(Minus, parts[0], parts[1..])
  }

  lemma RemainderSnoc(parts: seq<int>, x: int)
    requires |parts| >= 1
    ensures Remainder(parts + [x]) == Remainder(parts) - x
  {
    assert (parts + [x])[1..] == parts[1..] + [x];
    FoldLeftSnoc(Minus, parts[0], parts[1..], x);
  }

  /** A problem's result is the value of its expression. */
  predicate Evaluates(p: Problem) {
    match p.op
    case Plus => p.result == FoldLeft(Plus, 0, p.parts)
    case Times => p.result == FoldLeft(Times, 1, p.parts)
    case Minus => |p.parts| >= 1 && p.result == Remainder(p.parts)
    case Divide => |p.parts| == 2 && p.parts[1] != 0 && p.parts[0] == p.result * p.parts[1]
  }

  /** A division problem divides exactly: its first part over its second is its result, remainder 0. */
  lemma DivisionIsExact(p: Problem)
    requires p.op == Divide && Evaluates(p)
    ensures p.parts[0] % p.parts[1] == 0 && p.parts[0] / p.parts[1] == p.result
  {
    MultipleDividesExactly(p.result, p.parts[1]);
  }

  lemma MultipleDividesExactly(q: int, d: int)
    requires d != 0
    ensures (q * d) % d == 0 && (q * d) / d == q
  {
    var a := q * d;
    var q', r' := a / d, a % d;
    assert a == d * q' + r' && 0 <= r' < if d > 0 then d else -d;
    var k := q - q';
    assert d * k == r' by {
      assert d * k == d * q - d * q';
    }
    if k >= 1 {
      MulAtLeast(d, k);
    } else if k <= -1 {
      MulAtLeast(d, -k);
    }
  }

  /** |d * k| >= |d| for k >= 1. */
  lemma MulAtLeast(d: int, k: int)
    requires k >= 1
    ensures d > 0 ==> d * k >= d
    ensures d < 0 ==> d * k <= d
  {
    if d > 0 {
      assert d * k == d + d * (k - 1);
      assert d * (k - 1) >= 0;
    } else if d < 0 {
      assert d * k == d + d * (k - 1);
      assert d * (k - 1) <= 0;
    }
  }

  // ---------------------------------------------------------------------
  // Random draws

  function Roll(rolls: seq<nat>, k: nat): nat {
    if k < |rolls| then rolls[k] else 0
  }

  /** An upper bound that may be fractional (only `maxNumber / result` is): its floor and whether it has a fraction. */
  datatype Bound = Bound(floor: int, fractional: bool) {
    function Ceil(): int {
      if fractional then floor + 1 else floor
    }
  }

  function Exact(n: int): Bound {
    Bound(n, false)
  }

  /** The integers `Math.floor(u * (hi - lo + 1)) + lo` takes for u in [0, 1): from lo up to
      the ceiling of hi when that is at least lo, otherwise from just above hi up to lo. */
  function Outcomes(lo: int, hi: Bound): (r: (int, int))
    ensures r.0 <= r.1 && (r.0 == lo || r.1 == lo)
  {
    if hi.Ceil() >= lo then (lo, hi.Ceil()) else (hi.floor + 1, lo)
  }

  predicate Within(v: int, r: (int, int)) {
    r.0 <= v <= r.1
  }

  predicate HasNonZero(r: (int, int)) {
    r.0 <= r.1 && r != (0, 0)
  }

  /** The non-zero member of `r` chosen by `roll`: every one of them can be chosen. */
  function PickNonZero(r: (int, int), roll: nat): (v: int)
    requires HasNonZero(r)
    ensures Within(v, r) && v != 0
  {
    if r.0 > 0 || r.1 < 0 then r.0 + roll % (r.1 - r.0 + 1)
    else
      var i := r.0 + roll % (r.1 - r.0);
      if i < 0 then i else i + 1
  }

  lemma PickNonZeroCovers(r: (int, int), v: int)
    requires HasNonZero(r) && Within(v, r) && v != 0
    ensures exists roll: nat :: PickNonZero(r, roll) == v
  {
    if r.0 > 0 || r.1 < 0 {
      ModOfSmall(v - r.0, r.1 - r.0 + 1);
      assert PickNonZero(r, v - r.0) == v;
    } else if v < 0 {
      ModOfSmall(v - r.0, r.1 - r.0);
      assert PickNonZero(r, v - r.0) == v;
    } else {
      ModOfSmall(v - 1 - r.0, r.1 - r.0);
      assert PickNonZero(r, v - 1 - r.0) == v;
    }
  }

  lemma ModOfSmall(x: int, m: int)
    requires 0 <= x < m
    ensures x % m == x
  {
    var q, r := x / m, x % m;
    assert x == m * q + r && 0 <= r < m;
    if q >= 1 {
      MulAtLeast(m, q);
    } else if q <= -1 {
      MulAtLeast(m, -q);
    }
  }

  /** `generateNonZeroNumber(lo, hi)`. */
  function Draw(lo: int, hi: Bound, roll: nat): (v: int)
    requires HasNonZero(Outcomes(lo, hi))
    ensures Within(v, Outcomes(lo, hi)) && v != 0
  {
    PickNonZero(Outcomes(lo, hi), roll)
  }

  /** For an ordinary range of positive integers a draw lands in it. */
  lemma DrawInRange(lo: int, hi: int, roll: nat)
    requires 1 <= lo <= hi
    ensures lo <= Draw(lo, Exact(hi), roll) <= hi
  {
  }

  /** `Math.min(maxNumber / result, 12)` as a Bound. */
  function PartnerBound(maxNumber: int, result: int): (b: Bound)
    requires result >= 1
    ensures b.floor >= 0 || maxNumber < 0
  {
    if maxNumber >= 12 * result then Exact(12) else Bound(maxNumber / result, maxNumber % result != 0)
  }

  /** The Bound is `Math.min(maxNumber / result, 12)`: it is 12 exactly when
      maxNumber / result reaches 12; otherwise its floor f is the floor of the
      quotient (f * result <= maxNumber < (f + 1) * result) and it is fractional
      exactly when the quotient is not whole. */
  lemma PartnerBoundMeaning(maxNumber: int, result: int)
    requires result >= 1
    ensures var b := PartnerBound(maxNumber, result);
      && (b == Exact(12) <==> maxNumber >= 12 * result)
      && (maxNumber < 12 * result ==>
            && b.floor < 12
            && b.floor * result <= maxNumber < (b.floor + 1) * result
            && (b.fractional <==> b.floor * result != maxNumber))
  {
    var b := PartnerBound(maxNumber, result);
    if maxNumber < 12 * result {
      var d, m := maxNumber / result, maxNumber % result;
      assert maxNumber == result * d + m && 0 <= m < result;
      assert (d + 1) * result == d * result + result;
      assert b.floor == d && b.floor < 12;
    }
  }

  // ---------------------------------------------------------------------
  // Integer n-th root (the multiplication cap)

  function Pow(b: int, n: nat): int {
    if n == 0 then 1 else b * Pow(b, n - 1)
  }

  lemma {:induction false} PowOfOne(n: nat)
    ensures Pow(1, n) == 1
  {
    if n > 0 { PowOfOne(n - 1); }
  }

  lemma {:induction false} PowGrows(b: int, n: nat)
    requires b >= 1 && n >= 1
    ensures Pow(b, n) >= b
  {
    if n > 1 {
      PowGrows(b, n - 1);
      assert b * Pow(b, n - 1) >= b * 1;
    }
  }

  lemma {:induction false} PowMonotone(a: int, b: int, n: nat)
    requires 0 <= a <= b
    ensures 0 <= Pow(a, n) <= Pow(b, n)
  {
    if n > 0 {
      PowMonotone(a, b, n - 1);
      var p, q := Pow(a, n - 1), Pow(b, n - 1);
      MulMonotone(a, 0, p);
      MulMonotone(p, a, b);
      MulMonotone(b, p, q);
      assert Pow(a, n) == a * p && Pow(b, n) == b * q;
      assert a * p == p * a && p * b == b * p;
    }
  }

  /** The largest root in 1..r whose n-th power is at most m, searching down from r. */
  function RootSearch(m: int, n: nat, r: int): (root: int)
    requires m >= 1 && n >= 1 && r >= 1 && m < Pow(r + 1, n)
    ensures 1 <= root <= r && Pow(root, n) <= m < Pow(root + 1, n)
    decreases r
  {
    PowOfOne(n);
    if Pow(r, n) <= m then r else RootSearch(m, n, r - 1)
  }

  /** `Math.floor(Math.pow(m, 1 / n))` computed exactly: the integer n-th root of m. */
  function IntRoot(m: int, n: nat): (root: int)
    requires m >= 1 && n >= 1
    ensures 1 <= root <= m && Pow(root, n) <= m < Pow(root + 1, n)
  {
    PowGrows(m + 1, n);
    RootSearch(m, n, m)
  }

  /** The multiplication cap for a number of terms. */
  function TimesCap(s: GameSettings): int
    requires GeneratorReady(s)
  {
    Min(s.maxNumber, IntRoot(s.maxNumber, s.variableCount))
  }

  // ---------------------------------------------------------------------
  // One problem

  /** The operation the first roll picks: one of the enabled operations, addition when none is enabled. */
  function ChosenOperation(s: GameSettings, roll: nat): (name: string)
    ensures |s.enabledOperations| > 0 ==> name in s.enabledOperations
    ensures |s.enabledOperations| == 0 ==> name == "addition"
  {
    var ops := EnabledOrDefault(s);
    ops[roll % |ops|]
  }

  /** The operations generateProblem chooses from. */
  function EnabledOrDefault(s: GameSettings): (ops: seq<string>)
    ensures |ops| >= 1
  {
    if |s.enabledOperations| == 0 then ["addition"] else s.enabledOperations
  }

  predicate AllWithin(parts: seq<int>, r: (int, int)) {
    forall i :: 0 <= i < |parts| ==> parts[i] != 0 && Within(parts[i], r)
  }

  /** The subtraction chain: a first part from the upper half of the range, then
      parts that each leave at least 1, stopping early only when no part fits. */
  predicate SubtractionChain(s: GameSettings, parts: seq<int>) {
    && 1 <= |parts| <= s.variableCount
    && parts[0] != 0 && Within(parts[0], Outcomes(s.maxNumber / 2, Exact(s.maxNumber)))
    && (forall k :: 1 <= k < |parts| ==> s.minNumber <= parts[k] <= Min(Remainder(parts[..k]) - 1, s.maxNumber))
    && (forall k :: 1 <= k <= |parts| ==> Remainder(parts[..k]) >= 1)
    && (|parts| < s.variableCount ==> Min(Remainder(parts) - 1, s.maxNumber) < s.minNumber)
  }

  /** The shape of a problem generated for the operation `name`. */
  predicate Generated(s: GameSettings, name: string, p: Problem)
    requires GeneratorReady(s)
  {
    match OperatorFor(name)
    case None => p == Problem([1, 1], 2, Plus)
    case Some(op) =>
      p.op == op &&
      match op
      case Plus => |p.parts| == s.variableCount && AllWithin(p.parts, Outcomes(s.minNumber, Exact(s.maxNumber)))
      case Times => |p.parts| == s.variableCount && AllWithin(p.parts, Outcomes(s.minNumber, Exact(TimesCap(s))))
      case Minus => SubtractionChain(s, p.parts)
      case Divide =>
        && |p.parts| == 2
        && p.result != 0 && Within(p.result, Outcomes(s.minNumber, Exact(Min(s.maxNumber, 12))))
        && p.result >= 1
        && p.parts[1] != 0 && Within(p.parts[1], Outcomes(s.minNumber, PartnerBound(s.maxNumber, p.result)))
  }

  /** p is what generateProblem can return for the settings s, for some choice of operation. */
  predicate Drawn(s: GameSettings, p: Problem)
    requires GeneratorReady(s)
  {
    exists k :: 0 <= k < |EnabledOrDefault(s)| && Generated(s, EnabledOrDefault(s)[k], p)
  }

  /** `generateProblem()`. */
  method GenerateProblem(s: GameSettings, rolls: seq<nat>) returns (p: Problem)
    requires GeneratorReady(s)
    ensures Evaluates(p)
    ensures Generated(s, ChosenOperation(s, Roll(rolls, 0)), p)
  {
    var operationType := ChosenOperation(s, Roll(rolls, 0));
    match OperatorFor(operationType)
    case None =>
      p := Problem([1, 1], 2, Plus);
    case Some(Plus) =>
      var parts := DrawParts(s.minNumber, s.maxNumber, s.variableCount, rolls);
      p := Problem(parts, FoldLeft(Plus, 0, parts), Plus);
    case Some(Minus) =>
      var parts := SubtractionParts(s, rolls);
      p := Problem(parts, Remainder(parts), Minus);
    case Some(Times) =>
      var adjustedMax := TimesCap(s);
      var parts := DrawParts(s.minNumber, adjustedMax, s.variableCount, rolls);
      p := Problem(parts, FoldLeft(Times, 1, parts), Times);
    case Some(Divide) =>
      var result := Draw(s.minNumber, Exact(Min(s.maxNumber, 12)), Roll(rolls, 1));
      var multiplier := Draw(s.minNumber, PartnerBound(s.maxNumber, result), Roll(rolls, 2));
      p := Problem([result * multiplier, multiplier], result, Divide);
  }

  /** The loop of the addition and multiplication branches: count numbers drawn from
      lo..hi, the i-th with roll 1 + i. */
  method DrawParts(lo: int, hi: int, count: int, rolls: seq<nat>) returns (parts: seq<int>)
    requires lo >= 1 && hi >= 1 && count >= 0
    ensures |parts| == count && AllWithin(parts, Outcomes(lo, Exact(hi)))
  {
    parts := [];
    var i := 0;
    while i < count
      invariant 0 <= i <= count && |parts| == i
      invariant AllWithin(parts, Outcomes(lo, Exact(hi)))
    {
      parts := parts + [Draw(lo, Exact(hi), Roll(rolls, 1 + i))];
      i := i + 1;
    }
  }

  /** The subtraction loop's invariant: every number after the first fits under what the
      numbers before it leave, and every prefix leaves at least 1. */
  predicate ChainSoFar(s: GameSettings, parts: seq<int>) {
    && |parts| >= 1
    && (forall k :: 1 <= k < |parts| ==> s.minNumber <= parts[k] <= Min(Remainder(parts[..k]) - 1, s.maxNumber))
    && (forall k :: 1 <= k <= |parts| ==> Remainder(parts[..k]) >= 1)
  }

  lemma ChainExtends(s: GameSettings, parts: seq<int>, x: int)
    requires ChainSoFar(s, parts) && s.minNumber <= x <= Min(Remainder(parts) - 1, s.maxNumber)
    ensures ChainSoFar(s, parts + [x]) && Remainder(parts + [x]) == Remainder(parts) - x
  {
    var longer := parts + [x];
    RemainderSnoc(parts, x);
    assert longer[..|parts|] == parts;
    assert forall k :: 1 <= k <= |parts| ==> longer[..k] == parts[..k];
    assert longer[..|longer|] == longer;
  }

  /** The loop of the subtraction branch: a first number from the upper half, then numbers
      that each leave at least 1, stopping when none fits. */
  method SubtractionParts(s: GameSettings, rolls: seq<nat>) returns (parts: seq<int>)
    requires GeneratorReady(s)
    ensures SubtractionChain(s, parts)
  {
    var firstNumber := Draw(s.maxNumber / 2, Exact(s.maxNumber), Roll(rolls, 1));
    parts := [firstNumber];
    assert parts[..1] == parts;
    var remainingValue := firstNumber;
    var i := 1;
    while i < s.variableCount
      invariant 1 <= i <= s.variableCount && |parts| == i
      invariant parts[0] == firstNumber
      invariant ChainSoFar(s, parts)
      invariant remainingValue == Remainder(parts)
    {
      var maxSubtract := Min(remainingValue - 1, s.maxNumber);
      if maxSubtract < s.minNumber {
        break;
      }
      var nextNumber := Draw(s.minNumber, Exact(maxSubtract), Roll(rolls, 1 + i));
      ChainExtends(s, parts, nextNumber);
      parts := parts + [nextNumber];
      remainingValue := remainingValue - nextNumber;
      i := i + 1;
    }
    assert parts[..|parts|] == parts;
  }

  /** A product of factors from 1..r is at most r to the number of factors. */
  lemma {:induction false} ProductAtMostPow(acc: int, parts: seq<int>, r: int)
    requires acc >= 0 && r >= 1
    requires forall i :: 0 <= i < |parts| ==> 1 <= parts[i] <= r
    ensures 0 <= FoldLeft(Times, acc, parts) <= acc * Pow(r, |parts|)
    decreases |parts|
  {
    if parts != [] {
      var x, rest := parts[0], parts[1..];
      var acc' := acc * x;
      MulMonotone(acc, 0, x);
      MulMonotone(acc, x, r);
      ProductAtMostPow(acc', rest, r);
      var pw := Pow(r, |rest|);
      PowMonotone(0, r, |rest|);
      MulMonotone(pw, acc', acc * r);
      assert FoldLeft(Times, acc, parts) == FoldLeft(Times, acc', rest);
      assert Pow(r, |parts|) == r * pw;
      assert acc' * pw == pw * acc';
      assert acc * (r * pw) == pw * (acc * r);
    }
  }

  lemma MulMonotone(a: int, b: int, c: int)
    requires a >= 0 && b <= c
    ensures a * b <= a * c
  {
    assert a * c == a * b + a * (c - b);
    assert a * (c - b) >= 0;
  }

  /** When the root cap is at least the lower bound, a generated product never exceeds the upper bound. */
  lemma MultiplicationStaysInRange(s: GameSettings, name: string, p: Problem)
    requires GeneratorReady(s) && OperatorFor(name) == Some(Times)
    requires Generated(s, name, p) && Evaluates(p)
    requires TimesCap(s) >= s.minNumber
    ensures s.minNumber <= p.result <= s.maxNumber
  {
    var r := TimesCap(s);
    assert forall i :: 0 <= i < |p.parts| ==> 1 <= p.parts[i] <= r;
    ProductAtMostPow(1, p.parts, r);
    ProductAtLeastFirst(p.parts, s.minNumber);
  }

  lemma {:induction false} ProductAtLeastFirst(parts: seq<int>, lo: int)
    requires |parts| >= 1 && lo >= 1
    requires forall i :: 0 <= i < |parts| ==> lo <= parts[i]
    ensures FoldLeft(Times, 1, parts) >= lo
  {
    ProductGrows(parts[0], parts[1..]);
  }

  lemma {:induction false} ProductGrows(acc: int, parts: seq<int>)
    requires acc >= 1
    requires forall i :: 0 <= i < |parts| ==> 1 <= parts[i]
    ensures FoldLeft(Times, acc, parts) >= acc
    decreases |parts|
  {
    if parts != [] {
      assert acc * parts[0] >= acc * 1;
      ProductGrows(acc * parts[0], parts[1..]);
    }
  }

  /** A subtraction problem's answer is a positive number no larger than its first part. */
  lemma SubtractionAnswerPositive(s: GameSettings, name: string, p: Problem)
    requires GeneratorReady(s) && OperatorFor(name) == Some(Minus)
    requires Generated(s, name, p) && Evaluates(p)
    ensures 1 <= p.result <= p.parts[0] <= s.maxNumber
  {
    assert p.parts[..|p.parts|] == p.parts;
    RemainderBelowFirst(p.parts, s.minNumber);
  }

  lemma {:induction false} RemainderBelowFirst(parts: seq<int>, lo: int)
    requires |parts| >= 1 && lo >= 1
    requires forall k :: 1 <= k < |parts| ==> lo <= parts[k]
    ensures Remainder(parts) <= parts[0]
    decreases |parts|
  {
    if |parts| > 1 {
      var init := parts[..|parts| - 1];
      assert init + [parts[|parts| - 1]] == parts;
      RemainderBelowFirst(init, lo);
      RemainderSnoc(init, parts[|parts| - 1]);
    }
  }

  // ---------------------------------------------------------------------
  // A round

  /** `p.parts.join(p.operation)`: the text the builder compares to reject repeated problems. */
  function Signature(p: Problem): string {
    Join(p.parts, Label(p.op))
  }

  function Results(ps: seq<ProblemTile>): (rs: seq<int>)
    ensures |rs| == |ps| && forall i :: 0 <= i < |ps| ==> rs[i] == ps[i].problem.result
  {
    seq(|ps|, i requires 0 <= i < |ps| => ps[i].problem.result)
  }

  function MapSeq<A, B>(f: A -> B, xs: seq<A>): (ys: seq<B>)
    ensures |ys| == |xs| && forall i :: 0 <= i < |xs| ==> ys[i] == f(xs[i])
  {
    seq(|xs|, i requires 0 <= i < |xs| => f(xs[i]))
  }

  function ValueOf(t: AnswerTile): int { t.value }
  function IdOf(t: AnswerTile): int { t.id }

  function Values(ts: seq<AnswerTile>): seq<int> {
    MapSeq(ValueOf, ts)
  }

  function AnswerIds(ts: seq<AnswerTile>): seq<int> {
    MapSeq(IdOf, ts)
  }

  /** `.sort(() => Math.random() - 0.5)`: some order of the tiles, chosen by the rolls;
      the first roll picks the tile that goes first, and so on. */
  function Shuffle<T>(xs: seq<T>, rolls: seq<nat>): (ys: seq<T>)
    ensures multiset(ys) == multiset(xs)
    decreases |xs|
  {
    if xs == [] then []
    else
      var j := Roll(rolls, 0) % |xs|;
      assert xs == xs[..j] + [xs[j]] + xs[j + 1..];
      [xs[j]] + Shuffle(xs[..j] + xs[j + 1..], if rolls == [] then [] else rolls[1..])
  }

  lemma MapSeqWithout<A, B>(f: A -> B, xs: seq<A>, j: int)
    requires 0 <= j < |xs|
    ensures MapSeq(f, xs[..j] + xs[j + 1..]) == MapSeq(f, xs)[..j] + MapSeq(f, xs)[j + 1..]
  {
    var rest := xs[..j] + xs[j + 1..];
    var m := MapSeq(f, xs);
    forall i | 0 <= i < |rest| ensures MapSeq(f, rest)[i] == (m[..j] + m[j + 1..])[i] {
      if i < j {
        assert rest[i] == xs[i];
      } else {
        assert rest[i] == xs[i + 1];
      }
    }
  }

  lemma MapSeqCons<A, B>(f: A -> B, x: A, xs: seq<A>)
    ensures MapSeq(f, [x] + xs) == [f(x)] + MapSeq(f, xs)
  {
    forall i | 0 <= i < 1 + |xs| ensures MapSeq(f, [x] + xs)[i] == ([f(x)] + MapSeq(f, xs))[i] {
      if i > 0 {
        assert ([x] + xs)[i] == xs[i - 1];
      }
    }
  }

  /** The order Shuffle picks depends on the number of elements only, so it commutes with reading a field. */
  lemma {:induction false} ShuffleMap<A, B>(f: A -> B, xs: seq<A>, rolls: seq<nat>)
    ensures MapSeq(f, Shuffle(xs, rolls)) == Shuffle(MapSeq(f, xs), rolls)
    decreases |xs|
  {
    if xs != [] {
      var j := Roll(rolls, 0) % |xs|;
      var rest := xs[..j] + xs[j + 1..];
      var next := if rolls == [] then [] else rolls[1..];
      var m := MapSeq(f, xs);
      ShuffleMap(f, rest, next);
      MapSeqWithout(f, xs, j);
      var tail := Shuffle(rest, next);
      assert Shuffle(xs, rolls) == [xs[j]] + tail;
      MapSeqCons(f, xs[j], tail);
      assert Shuffle(m, rolls) == [m[j]] + Shuffle(m[..j] + m[j + 1..], next);
    }
  }

  /** The answer tiles before shuffling: the values in order, with consecutive ids from firstId. */
  function Tray(values: seq<int>, firstId: int): (ts: seq<AnswerTile>)
    ensures Values(ts) == values
    ensures Distinct(AnswerIds(ts))
    ensures forall j :: 0 <= j < |ts| ==> firstId <= ts[j].id < firstId + |values|
  {
    seq(|values|, j requires 0 <= j < |values| => AnswerTile(firstId + j, values[j]))
  }

  /** After shuffling, the tray holds the same values and still has distinct ids in range. */
  lemma ShuffledTray(values: seq<int>, firstId: int, rolls: seq<nat>, ts: seq<AnswerTile>)
    requires ts == Shuffle(Tray(values, firstId), rolls)
    ensures multiset(Values(ts)) == multiset(values)
    ensures Distinct(AnswerIds(ts))
    ensures forall j :: 0 <= j < |ts| ==> firstId <= ts[j].id < firstId + |values|
  {
    var tray := Tray(values, firstId);
    ShuffleMap(ValueOf, tray, rolls);
    ShuffleMap(IdOf, tray, rolls);
    DistinctPermutation(AnswerIds(ts), AnswerIds(tray));
    forall j | 0 <= j < |ts|
      ensures firstId <= ts[j].id < firstId + |values|
    {
      assert ts[j] in multiset(tray);
    }
  }

  /** `Array.from(answersSet).map(value => ({ id, value })).sort(random)`: the answer tiles of a round. */
  function ShuffledAnswers(values: seq<int>, firstId: int, rolls: seq<nat>): (ts: seq<AnswerTile>)
    ensures multiset(Values(ts)) == multiset(values)
    ensures Distinct(AnswerIds(ts))
    ensures forall j :: 0 <= j < |ts| ==> firstId <= ts[j].id < firstId + |values|
  {
    var ts := Shuffle(Tray(values, firstId), rolls);
    ShuffledTray(values, firstId, rolls, ts);
    ts
  }

  const MaxAttempts: int := 100

  /** A new round: the problems, the shuffled answers, and whether fewer problems than asked were found. */
  datatype Round = Round(problems: seq<ProblemTile>, answers: seq<AnswerTile>, short: bool)

  predicate NoRepeatedSignature(ps: seq<ProblemTile>) {
    forall i, j :: 0 <= i < j < |ps| ==> Signature(ps[i].problem) != Signature(ps[j].problem)
  }

  /** Every tile holds a problem that evaluates and that the generator can draw from s,
      and the ids count up from idBase. */
  predicate TilesFrom(s: GameSettings, idBase: int, ps: seq<ProblemTile>)
    requires GeneratorReady(s)
  {
    forall i :: 0 <= i < |ps| ==> Evaluates(ps[i].problem) && Drawn(s, ps[i].problem) && ps[i].id == idBase + i
  }

  lemma TilesFromSnoc(s: GameSettings, idBase: int, ps: seq<ProblemTile>, t: ProblemTile)
    requires GeneratorReady(s) && TilesFrom(s, idBase, ps)
    requires Evaluates(t.problem) && Drawn(s, t.problem) && t.id == idBase + |ps|
    ensures TilesFrom(s, idBase, ps + [t])
  {
    var qs := ps + [t];
    forall i | 0 <= i < |qs| ensures Evaluates(qs[i].problem) && Drawn(s, qs[i].problem) && qs[i].id == idBase + i {
      if i < |ps| {
        assert qs[i] == ps[i];
      }
    }
  }

  /** What a round built from the settings s guarantees: at most problemCount problems
      (short exactly when fewer), each one a generated problem whose result is its value,
      pairwise distinct results and texts, one answer tile per result, problem ids
      idBase, idBase+1, ... and distinct answer ids after them. */
  predicate RoundOk(s: GameSettings, idBase: int, r: Round)
    requires GeneratorReady(s)
  {
    && (|r.problems| <= s.problemCount || r.problems == [])
    && (r.short <==> |r.problems| < s.problemCount)
    && TilesFrom(s, idBase, r.problems)
    && Distinct(Results(r.problems)) && NoRepeatedSignature(r.problems)
    && multiset(Values(r.answers)) == multiset(Results(r.problems))
    && Distinct(AnswerIds(r.answers))
    && (forall j :: 0 <= j < |r.answers| ==>
          idBase + |r.problems| <= r.answers[j].id < idBase + 2 * |r.problems|)
  }

  /** `generateProblemsAndAnswers()`: up to 100 attempts to collect `problemCount`
      problems with pairwise different results and texts, then one answer tile
      per result in shuffled order. Problem tiles take the ids idBase, idBase+1, ...
      and answer tiles the ids after them. */
  method GenerateProblemsAndAnswers(s: GameSettings, rolls: seq<seq<nat>>, shuffleRolls: seq<nat>, idBase: int)
    returns (round: Round, attempts: int)
    requires GeneratorReady(s)
    ensures 0 <= attempts <= MaxAttempts && |round.problems| <= attempts
    ensures round.short ==> attempts == MaxAttempts
    ensures RoundOk(s, idBase, round)
  {
    var newProblems: seq<ProblemTile> := [];
    // a JavaScript Set iterates in insertion order
    var answersSet: seq<int> := [];
    attempts := 0;
    while |newProblems| < s.problemCount && attempts < MaxAttempts
      invariant 0 <= attempts <= MaxAttempts && |newProblems| <= attempts
      invariant |newProblems| <= s.problemCount || newProblems == []
      invariant answersSet == Results(newProblems) && Distinct(answersSet)
      invariant TilesFrom(s, idBase, newProblems)
      invariant NoRepeatedSignature(newProblems)
    {
      var problemRolls := if attempts < |rolls| then rolls[attempts] else [];
      attempts := attempts + 1;
      var problem := GenerateProblem(s, problemRolls);
      assert Drawn(s, problem) by {
        var k := Roll(problemRolls, 0) % |EnabledOrDefault(s)|;
        assert Generated(s, EnabledOrDefault(s)[k], problem);
      }
      if problem.result !in answersSet
        && !(exists i :: 0 <= i < |newProblems| && Signature(newProblems[i].problem) == Signature(problem))
      {
        var tile := ProblemTile(idBase + |newProblems|, problem);
        AcceptKeepsDistinct(newProblems, tile);
        TilesFromSnoc(s, idBase, newProblems, tile);
        newProblems := newProblems + [tile];
        answersSet := answersSet + [problem.result];
      }
    }
    var shuffledAnswers := ShuffledAnswers(answersSet, idBase + |newProblems|, shuffleRolls);
    round := Round(newProblems, shuffledAnswers, |newProblems| < s.problemCount);
  }

  /** Adding a problem whose result and text are both new keeps results and texts distinct. */
  lemma AcceptKeepsDistinct(ps: seq<ProblemTile>, t: ProblemTile)
    requires Distinct(Results(ps)) && NoRepeatedSignature(ps)
    requires t.problem.result !in Results(ps)
    requires !(exists i :: 0 <= i < |ps| && Signature(ps[i].problem) == Signature(t.problem))
    ensures Results(ps + [t]) == Results(ps) + [t.problem.result]
    ensures Distinct(Results(ps + [t])) && NoRepeatedSignature(ps + [t])
  {
    var qs := ps + [t];
    assert Results(qs) == Results(ps) + [t.problem.result];
    forall i, j | 0 <= i < j < |qs| ensures Results(qs)[i] != Results(qs)[j] {
      if j == |ps| {
        assert Results(qs)[i] == Results(ps)[i];
      } else {
        assert Results(qs)[i] == Results(ps)[i] && Results(qs)[j] == Results(ps)[j];
      }
    }
    forall i, j | 0 <= i < j < |qs| ensures Signature(qs[i].problem) != Signature(qs[j].problem) {
      assert qs[i] == ps[i];
    }
  }

  /** Every result of a round has exactly one answer tile, and every tile answers some problem. */
  lemma OneTilePerResult(r: Round)
    requires multiset(Values(r.answers)) == multiset(Results(r.problems))
    requires Distinct(Results(r.problems))
    ensures forall i :: 0 <= i < |r.problems| ==> multiset(Values(r.answers))[r.problems[i].problem.result] == 1
    ensures forall j :: 0 <= j < |r.answers| ==> exists i :: 0 <= i < |r.problems| && r.problems[i].problem.result == r.answers[j].value
  {
    DistinctIffSingleCounts(Results(r.problems));
    forall i | 0 <= i < |r.problems|
      ensures multiset(Values(r.answers))[r.problems[i].problem.result] == 1
    {
      assert Results(r.problems)[i] in multiset(Results(r.problems));
    }
    forall j | 0 <= j < |r.answers|
      ensures exists i :: 0 <= i < |r.problems| && r.problems[i].problem.result == r.answers[j].value
    {
      assert Values(r.answers)[j] in multiset(Results(r.problems));
      assert Values(r.answers)[j] in Results(r.problems);
    }
  }
}
