/** The badge catalog: ten achievements, seven with threshold conditions over the
    play statistics and three "super" badges gated on other badges; the single
    evaluation pass the game runs after every statistics change; and the lookup
    the badge shelf uses to turn earned ids back into catalog entries. */
module Badges {
  import opened Util

  /** The statistics the conditions read. */
  datatype Stats = Stats(
    level: int,
    fastSolves: int,
    playTime: int,
    maxStreak: int,
    operationsUsed: set<string>,
    totalSolved: int,
    maxVariables: int)

  /** The statistics a session starts with and returns to on reset. */
  const InitialStats: Stats := Stats(1, 0, 0, 0, {}, 0, 2)

  datatype Badge =
    | QuickStart | MathWhiz | SpeedDemon | Persistent | Perfectionist | Explorer | VariableMaster
    | MathMaster | GrandExplorer | UltimateAchiever

  /** `Object.values(BADGES)`, in declaration order. */
  const Catalog: seq<Badge> := [
    QuickStart, MathWhiz, SpeedDemon, Persistent, Perfectionist, Explorer, VariableMaster,
    MathMaster, GrandExplorer, UltimateAchiever
  ]

  function Id(b: Badge): string {
    match b
    case QuickStart => "quick-start"
    case MathWhiz => "math-whiz"
    case SpeedDemon => "speed-demon"
    case Persistent => "persistent"
    case Perfectionist => "perfectionist"
    case Explorer => "explorer"
    case VariableMaster => "variable-master"
    case MathMaster => "math-master"
    case GrandExplorer => "grand-explorer"
    case UltimateAchiever => "ultimate-achiever"
  }

  predicate IsSuper(b: Badge) {
    b == MathMaster || b == GrandExplorer || b == UltimateAchiever
  }

  /** The `requiredBadges` list of a super badge; base badges declare none. */
  function RequiredBadges(b: Badge): seq<string> {
    match b
    case MathMaster => ["math-whiz", "speed-demon", "perfectionist"]
    case GrandExplorer => ["explorer", "variable-master"]
    case UltimateAchiever => ["math-master", "grand-explorer"]
    case _ => []
  }

  /** `badge.condition(stats, earnedBadges)`. */
  predicate Condition(b: Badge, s: Stats, earned: seq<string>) {
    match b
    case QuickStart => s.totalSolved >= 1
    case MathWhiz => s.level >= 3
    case SpeedDemon => s.fastSolves >= 10
    case Persistent => s.playTime >= 300
    case Perfectionist => s.maxStreak >= 10
    case Explorer => |s.operationsUsed| >= 4
    case VariableMaster => s.maxVariables >= 5
    case MathMaster => "math-whiz" in earned && "speed-demon" in earned && "perfectionist" in earned
    case GrandExplorer => "explorer" in earned && "variable-master" in earned && s.totalSolved >= 100
    case UltimateAchiever => "math-master" in earned && "grand-explorer" in earned
  }

  // ---------------------------------------------------------------- catalog facts

  lemma CatalogComplete(b: Badge)
    ensures b in Catalog
  {
  }

  /** All ten ids are distinct. */
  lemma IdsDistinct()
    ensures |Catalog| == 10
    ensures forall i, j :: 0 <= i < j < |Catalog| ==> Id(Catalog[i]) != Id(Catalog[j])
  {
  }

  lemma IdInjective(a: Badge, b: Badge)
    ensures Id(a) == Id(b) ==> a == b
  {
  }

  /** Base conditions ignore the earned list. */
  lemma BaseConditionIgnoresEarned(b: Badge, s: Stats, e1: seq<string>, e2: seq<string>)
    requires !IsSuper(b)
    ensures Condition(b, s, e1) == Condition(b, s, e2)
  {
  }

  /** Statistics that grew pointwise. */
  predicate StatsGrew(s: Stats, t: Stats) {
    && s.level <= t.level && s.fastSolves <= t.fastSolves && s.playTime <= t.playTime
    && s.maxStreak <= t.maxStreak && s.operationsUsed <= t.operationsUsed
    && s.totalSolved <= t.totalSolved && s.maxVariables <= t.maxVariables
  }

  /** Every condition is monotone: more statistics and more earned badges never turn it false. */
  lemma ConditionMonotone(b: Badge, s: Stats, t: Stats, e1: seq<string>, e2: seq<string>)
    requires StatsGrew(s, t)
    requires forall x :: x in e1 ==> x in e2
    requires Condition(b, s, e1)
    ensures Condition(b, t, e2)
  {
    if b == Explorer {
      assert |s.operationsUsed| <= |t.operationsUsed| by {
        SubsetCardinality(s.operationsUsed, t.operationsUsed);
      }
    }
  }

  lemma {:induction false} SubsetCardinality<T>(a: set<T>, b: set<T>)
    requires a <= b
    ensures |a| <= |b|
    decreases |a|
  {
    if a != {} {
      var x :| x in a;
      SubsetCardinality(a - {x}, b - {x});
    }
  }

  predicate AllIn(ids: seq<string>, earned: seq<string>) {
    forall r :: r in ids ==> r in earned
  }

  /** A super badge's condition is exactly "all of its requiredBadges are earned",
      plus 100 solved problems for grand-explorer. */
  lemma SuperConditionMatchesRequired(b: Badge, s: Stats, earned: seq<string>)
    requires IsSuper(b)
    ensures Condition(b, s, earned) <==>
      AllIn(RequiredBadges(b), earned) && (b == GrandExplorer ==> s.totalSolved >= 100)
  {
    var req := RequiredBadges(b);
    if AllIn(req, earned) {
      forall r | r in req ensures r in earned { }
    } else {
      var r :| r in req && r !in earned;
    }
  }

  /** Depth in the dependency graph: base 0, the two super badges 1, ultimate-achiever 2. */
  function Rank(b: Badge): nat {
    if b == UltimateAchiever then 2 else if IsSuper(b) then 1 else 0
  }

  /** Every required id names a catalog badge of strictly lower rank, so the graph is acyclic. */
  lemma DependenciesAcyclic(b: Badge)
    ensures forall r :: r in RequiredBadges(b) ==> exists d: Badge :: Id(d) == r && Rank(d) < Rank(b)
  {
    forall r | r in RequiredBadges(b) ensures exists d: Badge :: Id(d) == r && Rank(d) < Rank(b) {
      if r == "math-whiz" { assert Id(MathWhiz) == r; }
      else if r == "speed-demon" { assert Id(SpeedDemon) == r; }
      else if r == "perfectionist" { assert Id(Perfectionist) == r; }
      else if r == "explorer" { assert Id(Explorer) == r; }
      else if r == "variable-master" { assert Id(VariableMaster) == r; }
      else if r == "math-master" { assert Id(MathMaster) == r; }
      else { assert Id(GrandExplorer) == r; }
    }
  }

  // ---------------------------------------------------------------- the shelf lookup

  /** `Object.values(BADGES).find(b => b.id === id)` over a list of entries. */
  function FindIn(entries: seq<Badge>, id: string): (r: Option<Badge>)
    ensures r.Some? ==> r.value in entries && Id(r.value) == id
    ensures r.None? ==> forall b :: b in entries ==> Id(b) != id
    decreases |entries|
  {
    if entries == [] then None
    else if Id(entries[0]) == id then Some(entries[0])
    else FindIn(entries[1..], id)
  }

  function FindBadge(id: string): Option<Badge> {
    FindIn(Catalog, id)
  }

  /** The lookup inverts Id on the catalog. */
  lemma FindBadgeInvertsId(b: Badge)
    ensures FindBadge(Id(b)) == Some(b)
  {
    CatalogComplete(b);
    var r := FindBadge(Id(b));
    IdInjective(r.value, b);
  }

  /** The badges the shelf shows: each earned id looked up in order, unknown ids skipped. */
  function Shelf(earned: seq<string>): (shown: seq<Badge>)
    ensures |shown| <= |earned|
    ensures forall b :: b in shown ==> Id(b) in earned
  {
    ShelfOf(Catalog, earned)
  }

  /** The shelf with the lookup over the given entries. */
  function ShelfOf(entries: seq<Badge>, earned: seq<string>): (shown: seq<Badge>)
    ensures |shown| <= |earned|
    ensures forall b :: b in shown ==> Id(b) in earned
    decreases |earned|
  {
    if earned == [] then []
    else
      var rest := ShelfOf(entries, earned[1..]);
      match FindIn(entries, earned[0])
      case Some(b) => [b] + rest
      case None => rest
  }

  /** The ids of a list of badges, in order. */
  function Ids(bs: seq<Badge>): seq<string>
    decreases |bs|
  {
    if bs == [] then [] else [Id(bs[0])] + Ids(bs[1..])
  }

  /** When every earned id is a catalog id, the shelf shows exactly those badges, in the same order. */
  lemma ShelfShowsKnownIds(earned: seq<string>)
    requires forall x :: x in earned ==> FindBadge(x).Some?
    ensures Ids(Shelf(earned)) == earned
  {
    ShelfOfShowsKnownIds(Catalog, earned);
  }

  lemma {:induction false} ShelfOfShowsKnownIds(entries: seq<Badge>, earned: seq<string>)
    requires forall x :: x in earned ==> FindIn(entries, x).Some?
    ensures Ids(ShelfOf(entries, earned)) == earned
    decreases |earned|
  {
    if earned != [] {
      assert forall x :: x in earned[1..] ==> x in earned;
      ShelfOfShowsKnownIds(entries, earned[1..]);
      assert earned[0] in earned;
      var b := FindIn(entries, earned[0]).value;
      var rest := ShelfOf(entries, earned[1..]);
      assert ShelfOf(entries, earned) == [b] + rest;
      assert ([b] + rest)[1..] == rest;
    }
  }

  // ---------------------------------------------------------------- the evaluation pass

  /** One `checkBadges` pass over `entries`: the ids, in catalog order, of entries that are not yet
      earned and whose condition holds against the earned list as it stood when the pass began. */
  function NewlyEarned(entries: seq<Badge>, s: Stats, earned: seq<string>): (added: seq<string>)
    ensures |added| <= |entries|
    decreases |entries|
  {
    if entries == [] then []
    else
      var b := entries[0];
      var rest := NewlyEarned(entries[1..], s, earned);
      if Id(b) !in earned && Condition(b, s, earned) then [Id(b)] + rest else rest
  }

  /** The ids a pass adds are exactly the ids of the entries that were absent and are met. */
  lemma {:induction false} NewlyEarnedMembers(entries: seq<Badge>, s: Stats, earned: seq<string>)
    ensures forall x :: x in NewlyEarned(entries, s, earned) <==>
      exists b :: b in entries && Id(b) == x && x !in earned && Condition(b, s, earned)
    decreases |entries|
  {
    if entries != [] {
      NewlyEarnedMembers(entries[1..], s, earned);
      assert forall c :: c in entries <==> c == entries[0] || c in entries[1..];
    }
  }

  /** The last id a pass adds names a catalog badge, which the shelf lookup finds. */
  lemma LastAddedIsFound(s: Stats, earned: seq<string>)
    requires NewlyEarned(Catalog, s, earned) != []
    ensures var added := NewlyEarned(Catalog, s, earned);
      FindBadge(added[|added| - 1]).Some? && Id(FindBadge(added[|added| - 1]).value) == added[|added| - 1]
  {
    var added := NewlyEarned(Catalog, s, earned);
    var last := added[|added| - 1];
    assert last in added;
    NewlyEarnedMembers(Catalog, s, earned);
    var b :| b in Catalog && Id(b) == last && last !in earned && Condition(b, s, earned);
    FindBadgeInvertsId(b);
  }

  /** The pass over one more entry appends that entry's id exactly when it is new and met. */
  lemma {:induction false} NewlyEarnedSnoc(entries: seq<Badge>, b: Badge, s: Stats, earned: seq<string>)
    ensures NewlyEarned(entries + [b], s, earned) ==
      NewlyEarned(entries, s, earned) + (if Id(b) !in earned && Condition(b, s, earned) then [Id(b)] else [])
    decreases |entries|
  {
    if entries == [] {
      assert [] + [b] == [b];
    } else {
      assert (entries + [b])[0] == entries[0] && (entries + [b])[1..] == entries[1..] + [b];
      NewlyEarnedSnoc(entries[1..], b, s, earned);
    }
  }

  /** The earned list after one pass. */
  function Pass(s: Stats, earned: seq<string>): seq<string> {
    earned + NewlyEarned(Catalog, s, earned)
  }

  /** A pass only appends: the old list is a prefix, and each appended id is a catalog id that was
      absent and whose condition held. */
  lemma PassOnlyAppends(s: Stats, earned: seq<string>)
    ensures |Pass(s, earned)| >= |earned| && Pass(s, earned)[..|earned|] == earned
    ensures forall x :: x in Pass(s, earned)[|earned|..] ==>
      x !in earned && exists b :: Id(b) == x && Condition(b, s, earned)
  {
    assert Pass(s, earned)[|earned|..] == NewlyEarned(Catalog, s, earned);
    NewlyEarnedMembers(Catalog, s, earned);
  }

  /** Membership after a pass, one badge at a time. */
  lemma PassMember(s: Stats, earned: seq<string>, b: Badge)
    ensures Id(b) in Pass(s, earned) <==> Id(b) in earned || Condition(b, s, earned)
  {
    CatalogComplete(b);
    NewlyEarnedMembers(Catalog, s, earned);
    if Id(b) in NewlyEarned(Catalog, s, earned) {
      var d :| d in Catalog && Id(d) == Id(b) && Id(d) !in earned && Condition(d, s, earned);
      IdInjective(d, b);
    }
  }

  /** A pass appends nothing exactly when every badge is either earned or unmet. */
  lemma PassFixedWhenSaturated(s: Stats, earned: seq<string>)
    requires forall b: Badge :: Id(b) in earned || !Condition(b, s, earned)
    ensures Pass(s, earned) == earned
  {
    NothingNew(Catalog, s, earned);
  }

  lemma {:induction false} NothingNew(entries: seq<Badge>, s: Stats, earned: seq<string>)
    requires forall b :: b in entries ==> Id(b) in earned || !Condition(b, s, earned)
    ensures NewlyEarned(entries, s, earned) == []
    decreases |entries|
  {
    if entries != [] {
      assert entries[0] in entries;
      NothingNew(entries[1..], s, earned);
    }
  }

  /** A base badge's membership settles after the first pass. */
  lemma BaseSettles(s: Stats, earned: seq<string>, b: Badge)
    requires !IsSuper(b)
    ensures var e1 := Pass(s, earned);
      Id(b) in Pass(s, Pass(s, e1)) ==> Id(b) in e1
    ensures Id(b) in Pass(s, Pass(s, earned)) ==> Id(b) in Pass(s, earned)
    ensures Condition(b, s, []) ==> Id(b) in Pass(s, earned)
  {
    var e1 := Pass(s, earned);
    var e2 := Pass(s, e1);
    PassMember(s, earned, b);
    PassMember(s, e1, b);
    PassMember(s, e2, b);
    BaseConditionIgnoresEarned(b, s, [], earned);
    BaseConditionIgnoresEarned(b, s, [], e1);
    BaseConditionIgnoresEarned(b, s, [], e2);
  }

  /** With the statistics held fixed, repeated passes reach a fixed point after at most three:
      base badges are picked up by the first pass, the two super badges by the second,
      ultimate-achiever by the third. */
  lemma PassesReachFixedPoint(s: Stats, earned: seq<string>)
    ensures var e3 := Pass(s, Pass(s, Pass(s, earned)));
      Pass(s, e3) == e3
  {
    var e3 := Pass(s, Pass(s, Pass(s, earned)));
    forall b: Badge ensures Id(b) in e3 || !Condition(b, s, e3) {
      if !IsSuper(b) {
        BaseSettledByThirdPass(s, earned, b);
      } else if b == MathMaster || b == GrandExplorer {
        FirstSuperSettledByThirdPass(s, earned, b);
      } else {
        UltimateSettledByThirdPass(s, earned);
      }
    }
    PassFixedWhenSaturated(s, e3);
  }

  lemma BaseSettledByThirdPass(s: Stats, earned: seq<string>, b: Badge)
    requires !IsSuper(b)
    ensures var e3 := Pass(s, Pass(s, Pass(s, earned)));
      Id(b) in e3 || !Condition(b, s, e3)
  {
    var e3 := Pass(s, Pass(s, Pass(s, earned)));
    PassMember(s, Pass(s, Pass(s, earned)), b);
    BaseSettles(s, earned, b);
    BaseConditionIgnoresEarned(b, s, [], e3);
  }

  lemma FirstSuperSettledByThirdPass(s: Stats, earned: seq<string>, b: Badge)
    requires b == MathMaster || b == GrandExplorer
    ensures var e3 := Pass(s, Pass(s, Pass(s, earned)));
      Id(b) in e3 || !Condition(b, s, e3)
  {
    var e1 := Pass(s, earned);
    var e2 := Pass(s, e1);
    RequiredSettleFirst(s, earned, b);
    PassMember(s, e1, b);
    PassMember(s, e2, b);
  }

  /** The base badges a first-level super badge requires are all in after the first pass
      once they are in at all. */
  lemma RequiredSettleFirst(s: Stats, earned: seq<string>, b: Badge)
    requires b == MathMaster || b == GrandExplorer
    ensures var e1 := Pass(s, earned);
      Condition(b, s, Pass(s, Pass(s, e1))) ==> Condition(b, s, e1)
    ensures var e1 := Pass(s, earned);
      Condition(b, s, Pass(s, e1)) ==> Condition(b, s, e1)
  {
    if b == MathMaster {
      BaseSettles(s, earned, MathWhiz);
      BaseSettles(s, earned, SpeedDemon);
      BaseSettles(s, earned, Perfectionist);
    } else {
      BaseSettles(s, earned, Explorer);
      BaseSettles(s, earned, VariableMaster);
    }
  }

  lemma UltimateSettledByThirdPass(s: Stats, earned: seq<string>)
    ensures var e3 := Pass(s, Pass(s, Pass(s, earned)));
      Id(UltimateAchiever) in e3 || !Condition(UltimateAchiever, s, e3)
  {
    var e2 := Pass(s, Pass(s, earned));
    var e3 := Pass(s, e2);
    PassMember(s, e2, UltimateAchiever);
    // the super ids present in e3 were already present in e2
    SuperSettles(s, earned, MathMaster);
    SuperSettles(s, earned, GrandExplorer);
    if Condition(UltimateAchiever, s, e3) {
      assert Condition(UltimateAchiever, s, e2);
    }
  }

  /** A first-level super badge's membership settles after the second pass. */
  lemma SuperSettles(s: Stats, earned: seq<string>, b: Badge)
    requires b == MathMaster || b == GrandExplorer
    ensures var e2 := Pass(s, Pass(s, earned));
      Id(b) in Pass(s, e2) ==> Id(b) in e2
  {
    var e1 := Pass(s, earned);
    RequiredSettleFirst(s, earned, b);
    PassMember(s, e1, b);
    PassMember(s, Pass(s, e1), b);
  }

  /** Statistics that meet every threshold the catalog sets. */
  const AllMet: Stats := Stats(3, 10, 300, 10, {"addition", "subtraction", "multiplication", "division"}, 100, 5)

  /** From nothing, the first pass over statistics that meet every threshold awards the base
      badges the super badges wait for, and no super badge. */
  lemma FirstPassAwardsBaseOnly()
    ensures var e1 := Pass(AllMet, []);
      && "math-whiz" in e1 && "speed-demon" in e1 && "perfectionist" in e1
      && "explorer" in e1 && "variable-master" in e1
      && "math-master" !in e1 && "grand-explorer" !in e1 && "ultimate-achiever" !in e1
  {
    assert |AllMet.operationsUsed| == 4;
    PassMember(AllMet, [], MathWhiz);
    PassMember(AllMet, [], SpeedDemon);
    PassMember(AllMet, [], Perfectionist);
    PassMember(AllMet, [], Explorer);
    PassMember(AllMet, [], VariableMaster);
    PassMember(AllMet, [], MathMaster);
    PassMember(AllMet, [], GrandExplorer);
    PassMember(AllMet, [], UltimateAchiever);
  }

  /** The second pass awards the first level of super badges, but not the one gated on them. */
  lemma SecondPassAwardsFirstSupers()
    ensures var e2 := Pass(AllMet, Pass(AllMet, []));
      "math-master" in e2 && "grand-explorer" in e2 && "ultimate-achiever" !in e2
  {
    var e1 := Pass(AllMet, []);
    FirstPassAwardsBaseOnly();
    PassMember(AllMet, e1, MathMaster);
    PassMember(AllMet, e1, GrandExplorer);
    PassMember(AllMet, e1, UltimateAchiever);
  }

  /** The single pass does not cascade: with every threshold met and nothing earned,
      math-master needs a second pass and ultimate-achiever a third. */
  lemma CascadeNeedsThreePasses()
    ensures "math-master" !in Pass(AllMet, [])
    ensures "math-master" in Pass(AllMet, Pass(AllMet, []))
    ensures "ultimate-achiever" !in Pass(AllMet, Pass(AllMet, []))
    ensures "ultimate-achiever" in Pass(AllMet, Pass(AllMet, Pass(AllMet, [])))
  {
    FirstPassAwardsBaseOnly();
    SecondPassAwardsFirstSupers();
    PassMember(AllMet, Pass(AllMet, Pass(AllMet, [])), UltimateAchiever);
  }

  /** With the statistics the game keeps (no operation recorded, maxVariables 2),
      explorer and variable-master can never be awarded by a pass. */
  lemma ExplorerAndVariableMasterUnreachable(s: Stats, earned: seq<string>)
    requires s.operationsUsed == {} && s.maxVariables == 2
    ensures "explorer" !in NewlyEarned(Catalog, s, earned)
    ensures "variable-master" !in NewlyEarned(Catalog, s, earned)
  {
    NewlyEarnedMembers(Catalog, s, earned);
    forall b: Badge ensures Id(b) == "explorer" ==> b == Explorer {
      IdInjective(b, Explorer);
    }
    forall b: Badge ensures Id(b) == "variable-master" ==> b == VariableMaster {
      IdInjective(b, VariableMaster);
    }
  }
}
