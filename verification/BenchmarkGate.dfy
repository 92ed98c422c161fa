/** The accuracy benchmark: scoring a scan against the ground truth, and the gate against a recorded baseline. */
module BenchmarkGate {
  import opened Options

  type Finding(==, !new)  // an id and an instance key
  type Group(==, !new)
  type Image(==, !new)

  const EPSILON: real := 0.000000001

  /** The ground truth of an application: which findings are real and which are wrong, each with its group. */
  datatype Truth =
    Truth(image: Image, expected: map<Finding, Group>, forbidden: map<Finding, Group>)

  datatype GroupScore = GroupScore(tp: nat, fp: nat, fn: nat)
  {
    function Precision(): Option<real> {
      if tp + fp > 0 then Some(tp as real / (tp + fp) as real) else None
    }

    function Recall(): Option<real> {
      if tp + fn > 0 then Some(tp as real / (tp + fn) as real) else None
    }
  }

  datatype Score = Score(tp: set<Finding>, fp: set<Finding>, fn: set<Finding>, unlabelled: set<Finding>,
                         groups: map<Group, GroupScore>)

  // --- scoring -----------------------------------------------------------------------------------------------------

  function InGroup(found: set<Finding>, labels: map<Finding, Group>, group: Group): set<Finding> {
    set k | k in found && k in labels && labels[k] == group
  }

  function Labelled(truth: Truth): set<Group> {
    truth.expected.Values + truth.forbidden.Values
  }

  function ScoreOfGroup(truth: Truth, observed: set<Finding>, group: Group): GroupScore {
    GroupScore(|InGroup(observed * truth.expected.Keys, truth.expected, group)|,
               |InGroup(observed * truth.forbidden.Keys, truth.forbidden, group)|,
               |InGroup(truth.expected.Keys - observed, truth.expected, group)|)
  }

  function ScoreOf(truth: Truth, observed: set<Finding>): Score {
    Score(observed * truth.expected.Keys, observed * truth.forbidden.Keys, truth.expected.Keys - observed,
          observed - truth.expected.Keys - truth.forbidden.Keys,
          map group | group in Labelled(truth) :: ScoreOfGroup(truth, observed, group))
  }

  /** One more finding of a group is counted. */
  lemma OneMoreInGroup(done: set<Finding>, k: Finding, labels: map<Finding, Group>, group: Group)
    requires k !in done && k in labels
    ensures |InGroup(done + {k}, labels, group)| == |InGroup(done, labels, group)| + if labels[k] == group then 1 else 0
  {
    if labels[k] == group {
      assert InGroup(done + {k}, labels, group) == InGroup(done, labels, group) + {k};
    } else {
      assert InGroup(done + {k}, labels, group) == InGroup(done, labels, group);
    }
  }

  datatype Which = CountTp | CountFp | CountFn

  function Bumped(score: GroupScore, which: Which, more: nat): GroupScore {
    match which
    case CountTp => score.(tp := score.tp + more)
    case CountFp => score.(fp := score.fp + more)
    case CountFn => score.(fn := score.fn + more)
  }

  /** One of the three counting loops. */
  method CountInto(groups: map<Group, GroupScore>, found: set<Finding>, labels: map<Finding, Group>, which: Which)
    returns (counted: map<Group, GroupScore>)
    requires found <= labels.Keys && labels.Values <= groups.Keys
    ensures counted.Keys == groups.Keys
    ensures forall g :: g in groups ==> counted[g] == Bumped(groups[g], which, |InGroup(found, labels, g)|)
  {
    counted := groups;
    var rest := found;
    assert forall g :: InGroup(found - rest, labels, g) == {};
    while rest != {}
      invariant rest <= found && counted.Keys == groups.Keys
      invariant forall g :: g in groups ==> counted[g] == Bumped(groups[g], which, |InGroup(found - rest, labels, g)|)
    {
      var k :| k in rest;
      var group := labels[k];
      assert group in labels.Values;
      ghost var done := found - rest;
      counted := counted[group := Bumped(counted[group], which, 1)];
      rest := rest - {k};
      assert found - rest == done + {k};
      forall g | g in groups ensures counted[g] == Bumped(groups[g], which, |InGroup(found - rest, labels, g)|) {
        OneMoreInGroup(done, k, labels, g);
      }
    }
    assert found - rest == found;
  }

  method ScoreScan(truth: Truth, observed: set<Finding>) returns (score: Score)
    ensures score == ScoreOf(truth, observed)
  {
    hide InGroup;
    var tp, fp := observed * truth.expected.Keys, observed * truth.forbidden.Keys;
    var fn := truth.expected.Keys - observed;
    var unlabelled := observed - truth.expected.Keys - truth.forbidden.Keys;
    var groups := map group | group in truth.expected.Values + truth.forbidden.Values :: GroupScore(0, 0, 0);
    groups := CountInto(groups, tp, truth.expected, CountTp);
    groups := CountInto(groups, fn, truth.expected, CountFn);
    groups := CountInto(groups, fp, truth.forbidden, CountFp);
    score := Score(tp, fp, fn, unlabelled, groups);
    assert groups == ScoreOf(truth, observed).groups;
  }

  // --- the gate ----------------------------------------------------------------------------------------------------

  datatype Record = Record(image: Image, expected: set<Finding>, forbidden: set<Finding>, tp: set<Finding>,
                           fp: set<Finding>, groups: map<Group, GroupScore>)

  function RecordOf(truth: Truth, score: Score): Record {
    Record(truth.image, truth.expected.Keys, truth.forbidden.Keys, score.tp, score.fp, score.groups)
  }

  datatype Measure = Precision | Recall
  datatype Regression =
    | NoLongerReported(k: Finding) | NewFalsePositive(k: Finding)
    | NotMeasurable(group: Group, measure: Measure) | Fell(group: Group, measure: Measure)

  function Measured(score: GroupScore, measure: Measure): Option<real> {
    match measure case Precision => score.Precision() case Recall => score.Recall()
  }

  /** Why one measure of one group is worse, if it is; a group that is gone has no measures. */
  function Worse(before: Record, now: Record, group: Group, measure: Measure): Option<Regression>
    requires group in before.groups
  {
    var was := Measured(before.groups[group], measure);
    var isNow := if group in now.groups then Measured(now.groups[group], measure) else None;
    if was.None? then None
    else if isNow.None? then (if was.value > EPSILON then Some(NotMeasurable(group, measure)) else None)
    else if isNow.value < was.value - EPSILON then Some(Fell(group, measure))
    else None
  }

  function Lost(before: Record, now: Record): set<Regression> {
    set k | k in before.tp - now.tp :: NoLongerReported(k)
  }

  function Added(before: Record, now: Record): set<Regression> {
    set k | k in now.fp - before.fp :: NewFalsePositive(k)
  }

  predicate Comparable(before: Record, now: Record) {
    before.image == now.image && before.expected == now.expected && before.forbidden == now.forbidden
  }

  /** Everything a comparison reports as a regression. */
  ghost predicate IsRegression(before: Record, now: Record, r: Regression) {
    || (r.NoLongerReported? && r.k in before.tp && r.k !in now.tp)
    || (r.NewFalsePositive? && r.k in now.fp && r.k !in before.fp)
    || exists group, measure :: group in before.groups && Worse(before, now, group, measure) == Some(r)
  }

  /** None where the comparison raises: another image, or another ground truth. */
  method Compare(before: Record, now: Record) returns (regressions: Option<set<Regression>>)
    ensures regressions.Some? <==> Comparable(before, now)
    ensures regressions.Some? ==> forall r :: r in regressions.value <==> IsRegression(before, now, r)
  {
    if before.image != now.image {
      return None;
    }
    if before.expected != now.expected || before.forbidden != now.forbidden {
      return None;
    }
    var found := Lost(before, now) + Added(before, now);
    var groups := before.groups.Keys;
    ghost var done: set<Group> := {};
    while groups != {}
      invariant done !! groups && done + groups == before.groups.Keys
      invariant forall r :: r in found <==>
        || r in Lost(before, now) || r in Added(before, now)
        || exists group, measure :: group in done && Worse(before, now, group, measure) == Some(r)
    {
      hide Worse;
      var group :| group in groups;
      groups := groups - {group};
      done := done + {group};
      var precision, recall := Worse(before, now, group, Precision), Worse(before, now, group, Recall);
      if precision.Some? {
        found := found + {precision.value};
      }
      if recall.Some? {
        found := found + {recall.value};
      }
    }
    hide Worse;
    assert done == before.groups.Keys;
    regressions := Some(found);
  }

  // --- what the gate decides ---------------------------------------------------------------------------------------

  lemma Fraction(a: real, b: real, c: real, d: real)
    requires b > 0.0 && d > 0.0 && a * d <= c * b
    ensures a / b <= c / d
  {
    var x, y := a / b, c / d;
    assert a == x * b && c == y * d;
    assert a * d == x * (b * d) && c * b == y * (b * d);
    Cancel(x, y, b * d);
  }

  lemma Cancel(x: real, y: real, factor: real)
    requires factor > 0.0 && x * factor <= y * factor
    ensures x <= y
  {
    assert (y - x) * factor >= 0.0;
    assert x > y ==> (y - x) * factor < 0.0;
  }

  lemma ProductsGrow(a: nat, b: nat, c: nat, d: nat)
    requires a <= c && b <= d
    ensures a * b <= c * d
  {
    assert a * b <= a * d;
    assert a * d <= c * d;
  }

  lemma CrossProductsGrow(tp: nat, other: nat, tpNow: nat, otherNow: nat)
    requires tp <= tpNow && otherNow <= other
    ensures tp * (tpNow + otherNow) <= tpNow * (tp + other)
  {
    ProductsGrow(tp, otherNow, tpNow, other);
    assert tp * (tpNow + otherNow) == tp * tpNow + tp * otherNow;
    assert tpNow * (tp + other) == tpNow * tp + tpNow * other;
  }

  lemma RealProduct(a: nat, b: nat)
    ensures a as real * b as real == (a * b) as real
  {
  }

  lemma MoreIsBetter(tp: nat, other: nat, tpNow: nat, otherNow: nat)
    requires tp <= tpNow && otherNow <= other && tp + other > 0 && tpNow + otherNow > 0
    ensures tp as real / (tp + other) as real <= tpNow as real / (tpNow + otherNow) as real
  {
    CrossProductsGrow(tp, other, tpNow, otherNow);
    RealProduct(tp, tpNow + otherNow);
    RealProduct(tpNow, tp + other);
    Fraction(tp as real, (tp + other) as real, tpNow as real, (tpNow + otherNow) as real);
  }

  /** A group with no fewer hits and no more misses of the kind a measure counts is not worse in that measure. */
  lemma GroupIsNoWorse(before: Record, now: Record, group: Group, measure: Measure)
    requires group in before.groups && group in now.groups
    requires before.groups[group].tp <= now.groups[group].tp
    requires measure == Precision ==> now.groups[group].fp <= before.groups[group].fp
    requires measure == Recall ==> now.groups[group].fn <= before.groups[group].fn
    ensures Worse(before, now, group, measure) == None
  {
    var was, isNow := before.groups[group], now.groups[group];
    if Measured(was, measure).Some? && Measured(isNow, measure).Some? {
      match measure {
        case Precision => MoreIsBetter(was.tp, was.fp, isNow.tp, isNow.fp);
        case Recall => MoreIsBetter(was.tp, was.fn, isNow.tp, isNow.fn);
      }
    }
  }

  lemma {:induction false} SubsetIsSmaller<T>(few: set<T>, many: set<T>)
    requires few <= many
    ensures |few| <= |many|
  {
    if few != {} {
      var x :| x in few;
      SubsetIsSmaller(few - {x}, many - {x});
    }
  }

  lemma InGroupGrows(few: set<Finding>, many: set<Finding>, labels: map<Finding, Group>, group: Group)
    requires few <= many
    ensures |InGroup(few, labels, group)| <= |InGroup(many, labels, group)|
  {
    SubsetIsSmaller(InGroup(few, labels, group), InGroup(many, labels, group));
  }

  /** The record of a scan with these findings. */
  function Recorded(truth: Truth, observed: set<Finding>): Record {
    RecordOf(truth, ScoreOf(truth, observed))
  }

  /** Between these scans no true finding was lost and no false one was added. */
  predicate NothingWorse(truth: Truth, before: set<Finding>, now: set<Finding>) {
    before * truth.expected.Keys <= now && now * truth.forbidden.Keys <= before
  }

  /** Two versions of a ground truth with the same keys, which is all that the comparison asks. */
  predicate SameKeys(before: Truth, now: Truth) {
    before.image == now.image && before.expected.Keys == now.expected.Keys
    && before.forbidden.Keys == now.forbidden.Keys
  }

  /** A relabelling that moves no true finding, and false ones only to groups without a true finding. */
  predicate Harmless(before: Truth, now: Truth)
    requires SameKeys(before, now)
  {
    && before.expected == now.expected
    && forall k :: k in before.forbidden && before.forbidden[k] != now.forbidden[k] ==>
         now.forbidden[k] !in now.expected.Values
  }

  lemma UnchangedIsHarmless(truth: Truth)
    ensures Harmless(truth, truth)
  {
  }

  /** A group that had no true finding had no recall, and a precision that cannot fall. */
  lemma EmptyGroupIsNoWorse(before: Record, now: Record, group: Group, measure: Measure)
    requires group in before.groups && before.groups[group].tp == 0 && before.groups[group].fn == 0
    ensures Worse(before, now, group, measure) == None
  {
    var was := before.groups[group];
    assert was.Precision().Some? ==> was.Precision().value == 0.0;
    if group in now.groups {
      NoNegativeMeasure(now.groups[group], measure);
    }
  }

  lemma NoNegativeMeasure(score: GroupScore, measure: Measure)
    ensures Measured(score, measure).Some? ==> Measured(score, measure).value >= 0.0
  {
    if score.tp + score.fp > 0 {
      Fraction(0.0, 1.0, score.tp as real, (score.tp + score.fp) as real);
    }
    if score.tp + score.fn > 0 {
      Fraction(0.0, 1.0, score.tp as real, (score.tp + score.fn) as real);
    }
  }

  lemma NoGroupIsWorse(before: Truth, now: Truth, was: set<Finding>, seen: set<Finding>, group: Group, measure: Measure)
    requires SameKeys(before, now) && Harmless(before, now) && group in Labelled(before)
    requires NothingWorse(before, was, seen)
    ensures Worse(Recorded(before, was), Recorded(now, seen), group, measure) == None
  {
    var b, c := Recorded(before, was), Recorded(now, seen);
    if group in before.expected.Values {
      InGroupGrows(was * before.expected.Keys, seen * now.expected.Keys, before.expected, group);
      InGroupGrows(now.expected.Keys - seen, before.expected.Keys - was, before.expected, group);
      var few, many := InGroup(seen * now.forbidden.Keys, now.forbidden, group),
                       InGroup(was * before.forbidden.Keys, before.forbidden, group);
      assert few <= many;
      SubsetIsSmaller(few, many);
      hide InGroup, Worse;
      GroupIsNoWorse(b, c, group, measure);
    } else {
      assert InGroup(was * before.expected.Keys, before.expected, group) == {};
      assert InGroup(before.expected.Keys - was, before.expected, group) == {};
      hide InGroup, Worse;
      EmptyGroupIsNoWorse(b, c, group, measure);
    }
  }

  /** For these two scans the gate passes if and only if no true finding was lost and no false one was added. */
  ghost predicate GateIsRight(before: Truth, now: Truth, was: set<Finding>, seen: set<Finding>) {
    (forall r :: !IsRegression(Recorded(before, was), Recorded(now, seen), r)) <==> NothingWorse(before, was, seen)
  }

  lemma HarmlessGateIsRight(before: Truth, now: Truth, was: set<Finding>, seen: set<Finding>)
    requires SameKeys(before, now) && Harmless(before, now)
    ensures GateIsRight(before, now, was, seen)
  {
    var b, c := Recorded(before, was), Recorded(now, seen);
    if NothingWorse(before, was, seen) {
      forall group, measure | group in b.groups ensures Worse(b, c, group, measure) == None {
        NoGroupIsWorse(before, now, was, seen, group, measure);
      }
      hide Worse, InGroup;
    } else {
      hide Worse, InGroup;
      if k :| k in was * before.expected.Keys && k !in seen {
        assert IsRegression(b, c, NoLongerReported(k));
      } else {
        var k :| k in seen * before.forbidden.Keys && k !in was;
        assert IsRegression(b, c, NewFalsePositive(k));
      }
    }
  }

  /**
   * For one ground truth the gate is exact: it passes if and only if no true finding was lost and no false one was
   * added. The group measures never decide alone - any that fell, or can no longer be taken, comes with such a key.
   */
  lemma GateIsExact(truth: Truth, before: set<Finding>, now: set<Finding>)
    ensures (forall r :: !IsRegression(Recorded(truth, before), Recorded(truth, now), r))
       <==> (forall k :: (k in before && k in truth.expected ==> k in now)
                      && (k in now && k in truth.forbidden ==> k in before))
  {
    hide IsRegression, Recorded;
    UnchangedIsHarmless(truth);
    HarmlessGateIsRight(truth, truth, before, now);
  }

  lemma AloneInItsGroup(truth: Truth, k: Finding, group: Group)
    requires k in truth.expected && k !in truth.forbidden
    ensures var score := ScoreOfGroup(truth, {k}, group);
            score.tp == (if truth.expected[k] == group then 1 else 0) && score.fp == 0
  {
    assert {k} * truth.expected.Keys == {k} && {k} * truth.forbidden.Keys == {};
    assert InGroup({k}, truth.expected, group) == if truth.expected[k] == group then {k} else {};
    assert InGroup({}, truth.forbidden, group) == {};
  }

  lemma LostPrecisionIsReported(before: Record, now: Record, group: Group)
    requires group in before.groups && before.groups[group].tp == 1 && before.groups[group].fp == 0
    requires group in now.groups ==> now.groups[group].tp == 0 && now.groups[group].fp == 0
    ensures Worse(before, now, group, Precision) == Some(NotMeasurable(group, Precision))
  {
    assert Measured(before.groups[group], Precision) == Some(1.0);
  }

  /**
   * The comparison looks at the keys of the two ground truths, not at their labels: moving a true finding to another
   * group is reported as a regression of the group it left, although both scans found exactly that one thing.
   */
  lemma RelabellingIsReported(before: Truth, now: Truth, k: Finding)
    requires SameKeys(before, now) && before.expected.Keys !! before.forbidden.Keys
    requires k in before.expected && before.expected[k] != now.expected[k]
    ensures IsRegression(Recorded(before, {k}), Recorded(now, {k}), NotMeasurable(before.expected[k], Precision))
  {
    var b, c := Recorded(before, {k}), Recorded(now, {k});
    var group := before.expected[k];
    assert group in before.expected.Values;
    AloneInItsGroup(before, k, group);
    AloneInItsGroup(now, k, group);
    hide InGroup, Worse, ScoreOfGroup;
    LostPrecisionIsReported(b, c, group);
  }

  /** Moving a false finding into the group of a true one halves that group's precision, with the same two findings. */
  lemma MovedFalseFindingIsReported(before: Truth, now: Truth, k: Finding, e: Finding)
    requires SameKeys(before, now) && before.expected.Keys !! before.forbidden.Keys
    requires k in before.forbidden && e in before.expected && before.expected[e] == now.expected[e]
    requires before.forbidden[k] != now.forbidden[k] == now.expected[e]
    ensures IsRegression(Recorded(before, {k, e}), Recorded(now, {k, e}), Fell(now.expected[e], Precision))
  {
    var b, c := Recorded(before, {k, e}), Recorded(now, {k, e});
    var group := before.expected[e];
    assert group in before.expected.Values && group in now.expected.Values;
    assert {k, e} * before.expected.Keys == {e} && {k, e} * before.forbidden.Keys == {k};
    assert InGroup({e}, before.expected, group) == {e} && InGroup({k}, before.forbidden, group) == {};
    assert InGroup({e}, now.expected, group) == {e} && InGroup({k}, now.forbidden, group) == {k};
    assert b.groups[group].Precision() == Some(1.0);
    assert c.groups[group].Precision() == Some(0.5);
    assert Worse(b, c, group, Precision) == Some(Fell(group, Precision));
  }

  /**
   * The gate is exact for every pair of scans if and only if the relabelling was harmless: no true finding changed its
   * group, and no false one moved to a group that has a true finding.
   */
  lemma GateIsExactIffHarmless(before: Truth, now: Truth)
    requires SameKeys(before, now) && before.expected.Keys !! before.forbidden.Keys
    ensures (forall was: set<Finding>, seen: set<Finding> :: GateIsRight(before, now, was, seen))
       <==> Harmless(before, now)
  {
    hide IsRegression, Recorded;
    if Harmless(before, now) {
      forall was: set<Finding>, seen: set<Finding> ensures GateIsRight(before, now, was, seen) {
        HarmlessGateIsRight(before, now, was, seen);
      }
    } else if k :| k in before.expected && before.expected[k] != now.expected[k] {
      RelabellingIsReported(before, now, k);
      assert !GateIsRight(before, now, {k}, {k});
    } else {
      assert before.expected == now.expected;
      var k :| k in before.forbidden && before.forbidden[k] != now.forbidden[k]
        && now.forbidden[k] in now.expected.Values;
      var e :| e in now.expected && now.expected[e] == now.forbidden[k];
      MovedFalseFindingIsReported(before, now, k, e);
      assert !GateIsRight(before, now, {k, e}, {k, e});
    }
  }
}
