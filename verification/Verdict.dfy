/**
 * The verdict of a scan: which findings count toward the gate, and that the exit code, the message and the JUnit file
 * all tell the same one.
 */
module Verdict {
  import opened Options

  type Fingerprint(==, !new)  // a fingerprint
  type Check(==, !new)
  type Rule(==, !new)  // an active suppression

  datatype Severity = Critical | High | Medium | Low | Info
  datatype FailOn = OnCritical | OnHigh | OnMedium | OnLow | Never
  datatype BaselineState = New | Unchanged

  datatype Finding = Finding(severity: Severity, fingerprint: Fingerprint, check: Check,
                             suppression: Option<Rule>, state: Option<BaselineState>)

  /** A finding of the baseline file. */
  datatype Past = Past(fingerprint: Fingerprint, check: Check)

  datatype Gate = Gate(failOn: FailOn, failed: bool, incomplete: bool, counted: map<Severity, nat>)

  function Threshold(failOn: FailOn): set<Severity> {
    match failOn
    case OnCritical => {Critical}
    case OnHigh => {Critical, High}
    case OnMedium => {Critical, High, Medium}
    case OnLow => {Critical, High, Medium, Low}
    case Never => {}
  }

  /** What is asked of a report beyond the findings themselves. */
  datatype Request = Request(suppressions: Option<seq<Rule>>, baseline: Option<seq<Past>>, failOn: FailOn,
                             homeFetched: bool, stopped: bool, ran: set<Check>, matches: (Rule, Finding) -> bool)
  {
    predicate Incomplete() { !homeFetched || stopped }
  }

  // --- marking findings --------------------------------------------------------------------------------------------

  function FirstMatch(rules: seq<Rule>, matches: (Rule, Finding) -> bool, f: Finding): Option<Rule> {
    if rules == [] then None
    else if matches(rules[0], f) then Some(rules[0])
    else FirstMatch(rules[1..], matches, f)
  }

  function Fingerprints(pasts: seq<Past>): set<Fingerprint> {
    set k | 0 <= k < |pasts| :: pasts[k].fingerprint
  }

  function WithState(request: Request, f: Finding): Finding {
    f.(state := if request.baseline.None? then None
                else Some(if f.fingerprint in Fingerprints(request.baseline.value) then Unchanged else New))
  }

  /** A finding as the report shows it. */
  function Marked(request: Request, f: Finding): Finding {
    WithState(request, f.(suppression := if request.suppressions.None? then None
                                         else FirstMatch(request.suppressions.value, request.matches, f)))
  }

  function AllMarked(request: Request, findings: seq<Finding>): (marked: seq<Finding>)
    ensures |marked| == |findings| && forall k :: 0 <= k < |findings| ==> marked[k] == Marked(request, findings[k])
  {
    seq(|findings|, k requires 0 <= k < |findings| => Marked(request, findings[k]))
  }

  /** Suppressed findings never count, and with a baseline only those it does not know. */
  predicate Counts(f: Finding) {
    f.suppression == None && f.state != Some(Unchanged)
  }

  function CountOf(findings: seq<Finding>, severity: Severity): nat {
    if findings == [] then 0
    else
      var last := findings[|findings| - 1];
      CountOf(findings[..|findings| - 1], severity) + if Counts(last) && last.severity == severity then 1 else 0
  }

  /** A finding that fails the gate. */
  predicate Fails(failOn: FailOn, f: Finding) {
    Counts(f) && f.severity in Threshold(failOn)
  }

  predicate AnyFails(failOn: FailOn, findings: seq<Finding>) {
    exists k :: 0 <= k < |findings| && Fails(failOn, findings[k])
  }

  // --- what the marks mean, on the request and the findings as they came ------------------------------------------------

  /** An active suppression matches the finding. */
  predicate Suppressed(request: Request, f: Finding) {
    request.suppressions.Some? &&
    exists i :: 0 <= i < |request.suppressions.value| && request.matches(request.suppressions.value[i], f)
  }

  /** This suppression matches, and none before it. */
  predicate FirstToMatch(request: Request, f: Finding, rule: Rule) {
    request.suppressions.Some? &&
    exists i :: 0 <= i < |request.suppressions.value| && request.suppressions.value[i] == rule && request.matches(rule, f)
      && forall j :: 0 <= j < i ==> !request.matches(request.suppressions.value[j], f)
  }

  /** The baseline has an entry with the finding's fingerprint. */
  predicate Known(request: Request, f: Finding) {
    request.baseline.Some? &&
    exists i :: 0 <= i < |request.baseline.value| && request.baseline.value[i].fingerprint == f.fingerprint
  }

  /** Not accepted: no suppression matches it and no baseline knows it. */
  predicate Open(request: Request, f: Finding) { !Suppressed(request, f) && !Known(request, f) }

  /** The findings of this severity that are not accepted, by their places. */
  ghost function OpenOf(request: Request, findings: seq<Finding>, severity: Severity): set<nat> {
    set k: nat | k < |findings| && findings[k].severity == severity && Open(request, findings[k])
  }

  /** A finding that should fail the gate. */
  ghost predicate Blocks(request: Request, f: Finding) {
    Open(request, f) && f.severity in Threshold(request.failOn)
  }

  ghost function BlockingOf(request: Request, findings: seq<Finding>): set<nat> {
    set k: nat | k < |findings| && Blocks(request, findings[k])
  }

  lemma {:induction false} FirstMatchIs(rules: seq<Rule>, matches: (Rule, Finding) -> bool, f: Finding)
    ensures FirstMatch(rules, matches, f) == None <==> forall i :: 0 <= i < |rules| ==> !matches(rules[i], f)
    ensures FirstMatch(rules, matches, f).Some? ==>
      exists i :: (0 <= i < |rules| && rules[i] == FirstMatch(rules, matches, f).value && matches(rules[i], f)
                   && forall j :: 0 <= j < i ==> !matches(rules[j], f))
  {
    if rules != [] && !matches(rules[0], f) {
      FirstMatchIs(rules[1..], matches, f);
      if FirstMatch(rules, matches, f).Some? {
        var i :| 0 <= i < |rules[1..]| && rules[1..][i] == FirstMatch(rules, matches, f).value
          && matches(rules[1..][i], f) && forall j :: 0 <= j < i ==> !matches(rules[1..][j], f);
        assert rules[i + 1] == rules[1..][i];
        forall j | 0 <= j < i + 1 ensures !matches(rules[j], f) {
          assert j > 0 ==> rules[j] == rules[1..][j - 1];
        }
      } else {
        forall i | 0 <= i < |rules| ensures !matches(rules[i], f) {
          assert i > 0 ==> rules[i] == rules[1..][i - 1];
        }
      }
    }
  }

  lemma FirstToMatchIsOne(request: Request, f: Finding, a: Rule, b: Rule)
    requires FirstToMatch(request, f, a) && FirstToMatch(request, f, b)
    ensures a == b
  {
  }

  /**
   * The marks of one finding: it is new if and only if there is a baseline and no entry of it has the fingerprint, and
   * it carries a suppression if and only if that is the first one to match it. It counts when neither accepts it.
   */
  lemma MarkMeans(request: Request, f: Finding)
    ensures var m := Marked(request, f);
      && (m.state == Some(New) <==> request.baseline.Some? && !Known(request, f))
      && (m.state == Some(Unchanged) <==> Known(request, f))
      && (forall rule :: m.suppression == Some(rule) <==> FirstToMatch(request, f, rule))
      && m.severity == f.severity && m.fingerprint == f.fingerprint && m.check == f.check
      && (Counts(m) <==> Open(request, f))
  {
    if request.suppressions.Some? {
      FirstMatchIs(request.suppressions.value, request.matches, f);
      var m := Marked(request, f);
      hide FirstMatch;
      if m.suppression.Some? {
        assert FirstToMatch(request, f, m.suppression.value);
      }
      forall rule ensures m.suppression == Some(rule) <==> FirstToMatch(request, f, rule) {
        if FirstToMatch(request, f, rule) && m.suppression.Some? {
          FirstToMatchIsOne(request, f, rule, m.suppression.value);
        }
      }
    }
  }

  lemma NoSuppression(request: Request, f: Finding)
    ensures Marked(request, f).suppression.None? <==> !Suppressed(request, f)
  {
    if request.suppressions.Some? {
      FirstMatchIs(request.suppressions.value, request.matches, f);
    }
  }

  lemma OneMoreOpen(request: Request, front: seq<Finding>, last: Finding, severity: Severity)
    ensures |OpenOf(request, front + [last], severity)|
         == |OpenOf(request, front, severity)| + if last.severity == severity && Open(request, last) then 1 else 0
  {
    hide Open;
    var here: set<nat> := if last.severity == severity && Open(request, last) then {|front|} else {};
    assert OpenOf(request, front + [last], severity) == OpenOf(request, front, severity) + here;
  }

  lemma OneMoreBlocking(request: Request, front: seq<Finding>, last: Finding)
    ensures |BlockingOf(request, front + [last])|
         == |BlockingOf(request, front)| + if Blocks(request, last) then 1 else 0
  {
    hide Blocks;
    var here: set<nat> := if Blocks(request, last) then {|front|} else {};
    assert BlockingOf(request, front + [last]) == BlockingOf(request, front) + here;
  }

  lemma MarkedFront(request: Request, front: seq<Finding>, last: Finding)
    ensures var marked := AllMarked(request, front + [last]);
      marked[..|marked| - 1] == AllMarked(request, front) && marked[|marked| - 1] == Marked(request, last)
  {
    hide Marked;
  }

  lemma {:induction false} CountMeans(request: Request, findings: seq<Finding>, severity: Severity)
    ensures CountOf(AllMarked(request, findings), severity) == |OpenOf(request, findings, severity)|
  {
    hide Marked, Open, Counts;
    if findings == [] {
      assert OpenOf(request, findings, severity) == {};
    } else {
      hide OpenOf, AllMarked;
      var front, last := findings[..|findings| - 1], findings[|findings| - 1];
      assert findings == front + [last];
      MarkedFront(request, front, last);
      CountMeans(request, front, severity);
      MarkMeans(request, last);
      OneMoreOpen(request, front, last, severity);
    }
  }

  lemma GateMeans(request: Request, findings: seq<Finding>)
    ensures AnyFails(request.failOn, AllMarked(request, findings))
       <==> exists k :: 0 <= k < |findings| && Blocks(request, findings[k])
  {
    var marked := AllMarked(request, findings);
    hide Marked, Open, Counts, Threshold;
    forall k | 0 <= k < |findings| ensures Fails(request.failOn, marked[k]) <==> Blocks(request, findings[k]) {
      MarkMeans(request, findings[k]);
    }
  }

  lemma {:induction false} FailuresMean(request: Request, findings: seq<Finding>)
    ensures FailingFindings(request.failOn, AllMarked(request, findings)) == |BlockingOf(request, findings)|
  {
    hide Marked, Open, Counts, Threshold;
    if findings == [] {
      assert BlockingOf(request, findings) == {};
    } else {
      hide BlockingOf, AllMarked;
      var front, last := findings[..|findings| - 1], findings[|findings| - 1];
      assert findings == front + [last];
      MarkedFront(request, front, last);
      FailuresMean(request, front);
      MarkMeans(request, last);
      OneMoreBlocking(request, front, last);
    }
  }

  // --- the report as it is built -----------------------------------------------------------------------------------

  /** A report; its findings are marked in place while it is built. */
  class Report {
    var findings: seq<Finding>
    var gate: Gate
    var gone: seq<Past>  // baseline findings that are fixed
    var unknown: seq<Past>  // baseline findings nobody looked for again

    constructor (findings: seq<Finding>)
      ensures this.findings == findings
    {
      this.findings := findings;
      gate := Gate(Never, false, false, map[]);
      gone, unknown := [], [];
    }

    method ApplySuppressions(request: Request)
      requires request.suppressions.Some?
      modifies this`findings
      ensures |findings| == |old(findings)|
      ensures forall k :: 0 <= k < |findings| ==> findings[k] == old(findings[k]).(
                suppression := FirstMatch(request.suppressions.value, request.matches, old(findings[k])))
    {
      var rules := request.suppressions.value;
      for i := 0 to |findings|
        invariant |findings| == |old(findings)|
        invariant forall k :: i <= k < |findings| ==> findings[k] == old(findings[k])
        invariant forall k :: 0 <= k < i ==> findings[k] == old(findings[k]).(
                    suppression := FirstMatch(rules, request.matches, old(findings[k])))
      {
        var rule: Option<Rule> := None;
        var n := 0;
        while n < |rules| && rule.None?
          invariant n <= |rules|
          invariant FirstMatch(rules, request.matches, findings[i])
                 == if rule.Some? then rule else FirstMatch(rules[n..], request.matches, findings[i])
        {
          assert rules[n..][0] == rules[n] && rules[n..][1..] == rules[n + 1..];
          if request.matches(rules[n], findings[i]) {
            rule := Some(rules[n]);
          }
          n := n + 1;
        }
        findings := findings[i := findings[i].(suppression := rule)];
      }
    }

    method ClearSuppressions()
      modifies this`findings
      ensures |findings| == |old(findings)|
      ensures forall k :: 0 <= k < |findings| ==> findings[k] == old(findings[k]).(suppression := None)
    {
      for i := 0 to |findings|
        invariant |findings| == |old(findings)|
        invariant forall k :: i <= k < |findings| ==> findings[k] == old(findings[k])
        invariant forall k :: 0 <= k < i ==> findings[k] == old(findings[k]).(suppression := None)
      {
        findings := findings[i := findings[i].(suppression := None)];
      }
    }

    /** The state of a finding: whether the baseline knows its fingerprint. */
    method MarkStates(request: Request)
      modifies this`findings
      ensures |findings| == |old(findings)|
      ensures forall k :: 0 <= k < |findings| ==> findings[k] == WithState(request, old(findings[k]))
    {
      for i := 0 to |findings|
        invariant |findings| == |old(findings)|
        invariant forall k :: i <= k < |findings| ==> findings[k] == old(findings[k])
        invariant forall k :: 0 <= k < i ==> findings[k] == WithState(request, old(findings[k]))
      {
        var state := if request.baseline.None? then None
                     else Some(if findings[i].fingerprint in Fingerprints(request.baseline.value) then Unchanged else New);
        findings := findings[i := findings[i].(state := state)];
      }
    }

    /** Sort what the baseline has and this scan has not into what is fixed and what nobody looked for again. */
    method SortMissing(pasts: seq<Past>, ran: set<Check>, incomplete: bool)
      modifies this`gone, this`unknown
      ensures var missing := FirstMissing(pasts, FingerprintsOf(findings));
        gone == Chosen(missing, ran, !incomplete, true) && unknown == Chosen(missing, ran, !incomplete, false)
    {
      hide FirstMissing, Chosen, Fingerprints;
      var current := FingerprintsOf(findings);
      var seen: set<Fingerprint> := {};
      gone, unknown := [], [];
      assert pasts[..0] == [];
      NothingMissing(current, ran, !incomplete);
      for i := 0 to |pasts|
        invariant seen == Fingerprints(FirstMissing(pasts[..i], current))
        invariant gone == Chosen(FirstMissing(pasts[..i], current), ran, !incomplete, true)
        invariant unknown == Chosen(FirstMissing(pasts[..i], current), ran, !incomplete, false)
      {
        var past := pasts[i];
        OneMorePast(pasts, i, current);
        if past.fingerprint !in current && past.fingerprint !in seen {
          OneMoreChosen(FirstMissing(pasts[..i], current), past, ran, !incomplete);
          seen := seen + {past.fingerprint};
          if !incomplete && past.check in ran {
            gone := gone + [past];
          } else {
            unknown := unknown + [past];
          }
        }
      }
      assert pasts[..|pasts|] == pasts;
    }

    /** The baseline part of a report. */
    method CompareBaseline(request: Request, incomplete: bool)
      modifies this`findings, this`gone, this`unknown
      ensures |findings| == |old(findings)|
      ensures forall k :: 0 <= k < |findings| ==> findings[k] == WithState(request, old(findings[k]))
      ensures request.baseline.Some? ==>
        var missing := FirstMissing(request.baseline.value, FingerprintsOf(old(findings)));
        gone == Chosen(missing, request.ran, !incomplete, true) && unknown == Chosen(missing, request.ran, !incomplete, false)
    {
      MarkStates(request);
      SameFingerprints(findings, old(findings));
      if request.baseline.Some? {
        SortMissing(request.baseline.value, request.ran, incomplete);
      } else {
        gone, unknown := [], [];
      }
    }

    method CountSeverities() returns (counted: map<Severity, nat>)
      ensures forall s: Severity :: s in counted && counted[s] == CountOf(findings, s)
    {
      counted := map[Critical := 0, High := 0, Medium := 0, Low := 0, Info := 0];
      assert findings[..0] == [];
      forall s: Severity ensures s in counted && counted[s] == 0 {
        match s { case Critical => case High => case Medium => case Low => case Info => }
      }
      for i := 0 to |findings|
        invariant forall s: Severity :: s in counted && counted[s] == CountOf(findings[..i], s)
      {
        assert findings[..i + 1][..i] == findings[..i];
        var f := findings[i];
        if f.suppression == None && f.state != Some(Unchanged) {
          counted := counted[f.severity := counted[f.severity] + 1];
        }
      }
      assert findings[..|findings|] == findings;
    }

    /** The gate part of a report. */
    method Build(request: Request)
      modifies this
      ensures findings == AllMarked(request, old(findings))
      ensures gate.failOn == request.failOn && gate.incomplete == request.Incomplete()
      ensures Consistent()
      ensures forall k :: 0 <= k < |findings| ==>
        && (findings[k].state == Some(New) <==> request.baseline.Some? && !Known(request, old(findings)[k]))
        && (findings[k].suppression.None? <==> !Suppressed(request, old(findings)[k]))
      ensures gate.failed <==> exists k :: 0 <= k < |old(findings)| && Blocks(request, old(findings)[k])
      ensures forall s: Severity :: s in gate.counted && gate.counted[s] == |OpenOf(request, old(findings), s)|
      ensures request.baseline.Some? ==>
        var missing := FirstMissing(request.baseline.value, FingerprintsOf(old(findings)));
        && gone == Chosen(missing, request.ran, !request.Incomplete(), true)
        && unknown == Chosen(missing, request.ran, !request.Incomplete(), false)
    {
      var incomplete := !request.homeFetched || request.stopped;
      if request.suppressions.Some? {
        ApplySuppressions(request);
      } else {
        ClearSuppressions();
      }
      SameFingerprints(findings, old(findings));
      CompareBaseline(request, incomplete);
      assert findings == AllMarked(request, old(findings));
      var counted := CountSeverities();
      var failed := exists s | s in Threshold(request.failOn) :: counted[s] > 0;
      CountsAreFindings(findings, request.failOn);
      gate := Gate(request.failOn, failed, incomplete, counted);
      GateMeans(request, old(findings));
      forall s: Severity ensures counted[s] == |OpenOf(request, old(findings), s)| {
        CountMeans(request, old(findings), s);
      }
      forall k | 0 <= k < |findings|
        ensures findings[k].state == Some(New) <==> request.baseline.Some? && !Known(request, old(findings)[k])
        ensures findings[k].suppression.None? <==> !Suppressed(request, old(findings)[k])
      {
        MarkMeans(request, old(findings)[k]);
        NoSuppression(request, old(findings)[k]);
      }
    }

    /** What building a report leaves true of it. */
    ghost predicate Consistent()
      reads this
    {
      gate.failed <==> AnyFails(gate.failOn, findings)
    }

    /**
     * The number of `<failure>` elements of the JUnit file, one for each finding that fails and one for the scan:
     * there are some exactly when the exit code is not zero.
     */
    method JunitFailures() returns (failures: nat)
      requires Consistent()
      ensures failures > 0 <==> ExitCode(gate) != 0
      ensures failures == FailingFindings(gate.failOn, findings) + if gate.incomplete && gate.failOn != Never then 1 else 0
    {
      failures := 0;
      assert findings[..0] == [];
      for i := 0 to |findings|
        invariant failures == FailingFindings(gate.failOn, findings[..i])
      {
        assert findings[..i + 1][..i] == findings[..i];
        var f := findings[i];
        if f.suppression.Some? {
        } else if f.state == Some(Unchanged) {
        } else if f.severity in Threshold(gate.failOn) {
          failures := failures + 1;
        }
      }
      assert findings[..|findings|] == findings;
      if gate.incomplete && gate.failOn != Never {
        failures := failures + 1;
      }
      OneVerdict(gate, findings);
    }
  }

  function FingerprintsOf(findings: seq<Finding>): set<Fingerprint> {
    set k | 0 <= k < |findings| :: findings[k].fingerprint
  }

  lemma NothingMissing(current: set<Fingerprint>, ran: set<Check>, finished: bool)
    ensures FirstMissing([], current) == [] && Fingerprints([]) == {}
    ensures Chosen([], ran, finished, true) == [] == Chosen([], ran, finished, false)
  {
  }

  lemma SameFingerprints(a: seq<Finding>, b: seq<Finding>)
    requires |a| == |b| && forall k :: 0 <= k < |a| ==> a[k].fingerprint == b[k].fingerprint
    ensures FingerprintsOf(a) == FingerprintsOf(b)
  {
  }

  /** The first baseline finding of each fingerprint that is not in the report, in the order of the baseline. */
  function FirstMissing(pasts: seq<Past>, current: set<Fingerprint>): seq<Past> {
    if pasts == [] then []
    else
      var front, last := FirstMissing(pasts[..|pasts| - 1], current), pasts[|pasts| - 1];
      if last.fingerprint in current || last.fingerprint in Fingerprints(front) then front else front + [last]
  }

  function Chosen(pasts: seq<Past>, ran: set<Check>, finished: bool, fixed: bool): seq<Past> {
    if pasts == [] then []
    else
      var front, last := Chosen(pasts[..|pasts| - 1], ran, finished, fixed), pasts[|pasts| - 1];
      if (finished && last.check in ran) == fixed then front + [last] else front
  }

  lemma OneMorePast(pasts: seq<Past>, i: nat, current: set<Fingerprint>)
    requires i < |pasts|
    ensures var before := FirstMissing(pasts[..i], current);
      FirstMissing(pasts[..i + 1], current)
      == if pasts[i].fingerprint in current || pasts[i].fingerprint in Fingerprints(before) then before else before + [pasts[i]]
  {
    assert pasts[..i + 1][..i] == pasts[..i];
  }

  lemma OneMoreChosen(before: seq<Past>, past: Past, ran: set<Check>, finished: bool)
    ensures Fingerprints(before + [past]) == Fingerprints(before) + {past.fingerprint}
    ensures Chosen(before + [past], ran, finished, true)
         == Chosen(before, ran, finished, true) + if finished && past.check in ran then [past] else []
    ensures Chosen(before + [past], ran, finished, false)
         == Chosen(before, ran, finished, false) + if finished && past.check in ran then [] else [past]
  {
    var all := before + [past];
    assert all[..|all| - 1] == before && all[|all| - 1] == past;
    forall p | p in Fingerprints(before) ensures p in Fingerprints(all) {
      var k :| 0 <= k < |before| && before[k].fingerprint == p;
      assert all[k] == before[k];
    }
  }

  // --- one verdict -------------------------------------------------------------------------------------------------

  lemma {:induction false} CountIsPositive(findings: seq<Finding>, severity: Severity)
    ensures CountOf(findings, severity) > 0
       <==> exists k :: 0 <= k < |findings| && Counts(findings[k]) && findings[k].severity == severity
  {
    if findings != [] {
      var n := |findings| - 1;
      CountIsPositive(findings[..n], severity);
      if CountOf(findings[..n], severity) > 0 {
        var k :| 0 <= k < n && Counts(findings[..n][k]) && findings[..n][k].severity == severity;
        assert findings[k] == findings[..n][k];
      }
    }
  }

  lemma CountsAreFindings(findings: seq<Finding>, failOn: FailOn)
    ensures (exists s :: s in Threshold(failOn) && CountOf(findings, s) > 0) <==> AnyFails(failOn, findings)
  {
    if AnyFails(failOn, findings) {
      var k :| 0 <= k < |findings| && Fails(failOn, findings[k]);
      CountIsPositive(findings, findings[k].severity);
    }
    if s :| s in Threshold(failOn) && CountOf(findings, s) > 0 {
      CountIsPositive(findings, s);
      var k :| 0 <= k < |findings| && Counts(findings[k]) && findings[k].severity == s;
      assert Fails(failOn, findings[k]);
    }
  }

  function FailingFindings(failOn: FailOn, findings: seq<Finding>): nat {
    if findings == [] then 0
    else FailingFindings(failOn, findings[..|findings| - 1]) + if Fails(failOn, findings[|findings| - 1]) then 1 else 0
  }

  lemma {:induction false} SomeFailing(failOn: FailOn, findings: seq<Finding>)
    ensures FailingFindings(failOn, findings) > 0 <==> AnyFails(failOn, findings)
  {
    if findings != [] {
      var n := |findings| - 1;
      SomeFailing(failOn, findings[..n]);
      if AnyFails(failOn, findings[..n]) {
        var k :| 0 <= k < n && Fails(failOn, findings[..n][k]);
        assert findings[k] == findings[..n][k];
      } else {
        assert forall k :: 0 <= k < n ==> findings[..n][k] == findings[k];
      }
    }
  }

  function ExitCode(gate: Gate): int {
    if gate.failed then 1 else if gate.incomplete && gate.failOn != Never then 3 else 0
  }

  datatype Status = FailStatus | WarnStatus | PassStatus

  /** The status of the message, and the exit code its text names. */
  function Message(gate: Gate): (Status, int) {
    if gate.failed then (FailStatus, 1)
    else if gate.incomplete then (WarnStatus, if gate.failOn == Never then 0 else 3)
    else (PassStatus, 0)
  }

  /**
   * One verdict: for every report the JUnit file has a failure if and only if the exit code is not zero, and the
   * message names that same code.
   */
  lemma OneVerdict(gate: Gate, findings: seq<Finding>)
    requires gate.failed <==> AnyFails(gate.failOn, findings)
    ensures FailingFindings(gate.failOn, findings) + (if gate.incomplete && gate.failOn != Never then 1 else 0) > 0
       <==> ExitCode(gate) != 0
    ensures Message(gate).1 == ExitCode(gate)
    ensures ExitCode(gate) == 1 <==> AnyFails(gate.failOn, findings)
    ensures ExitCode(gate) == 3 <==> !AnyFails(gate.failOn, findings) && gate.incomplete && gate.failOn != Never
    ensures ExitCode(gate) == 0 || ExitCode(gate) == 1 || ExitCode(gate) == 3
    ensures Message(gate).0 == FailStatus <==> ExitCode(gate) == 1
    ensures Message(gate).0 == WarnStatus <==> !gate.failed && gate.incomplete
    ensures gate.failOn == Never ==> ExitCode(gate) == 0
  {
    SomeFailing(gate.failOn, findings);
  }

  function Rank(severity: Severity): nat {
    match severity case Critical => 4 case High => 3 case Medium => 2 case Low => 1 case Info => 0
  }

  /** The least rank that fails; 5 when nothing does. */
  function Bar(failOn: FailOn): nat {
    match failOn case OnCritical => 4 case OnHigh => 3 case OnMedium => 2 case OnLow => 1 case Never => 5
  }

  /** A threshold is every severity from its own upwards, so a stricter setting fails whatever a laxer one fails. */
  lemma StricterFailsMore(strict: FailOn, lax: FailOn, severity: Severity, findings: seq<Finding>)
    requires Bar(strict) <= Bar(lax)
    ensures severity in Threshold(lax) <==> Rank(severity) >= Bar(lax)
    ensures AnyFails(lax, findings) ==> AnyFails(strict, findings)
  {
    ThresholdIsRank(lax, severity);
    if AnyFails(lax, findings) {
      var k :| 0 <= k < |findings| && Fails(lax, findings[k]);
      ThresholdIsRank(lax, findings[k].severity);
      ThresholdIsRank(strict, findings[k].severity);
    }
  }

  lemma ThresholdIsRank(failOn: FailOn, severity: Severity)
    ensures severity in Threshold(failOn) <==> Rank(severity) >= Bar(failOn)
  {
  }

  // --- what a baseline and suppressions can and cannot do ----------------------------------------------------------

  /** The same request without them. */
  function Bare(request: Request): Request {
    request.(suppressions := None, baseline := None)
  }

  /** Accepting findings never makes a passing gate fail. */
  lemma AcceptingNeverFails(request: Request, findings: seq<Finding>)
    requires AnyFails(request.failOn, AllMarked(request, findings))
    ensures AnyFails(request.failOn, AllMarked(Bare(request), findings))
    ensures AnyFails(request.failOn, AllMarked(request.(suppressions := None), findings))
    ensures AnyFails(request.failOn, AllMarked(request.(baseline := None), findings))
  {
    var k :| 0 <= k < |findings| && Fails(request.failOn, AllMarked(request, findings)[k]);
    hide FirstMatch, Fingerprints, Threshold;
    assert Fails(request.failOn, AllMarked(Bare(request), findings)[k]);
    assert Fails(request.failOn, AllMarked(request.(suppressions := None), findings)[k]);
    assert Fails(request.failOn, AllMarked(request.(baseline := None), findings)[k]);
  }

  ghost predicate NoRepeats(pasts: seq<Past>) {
    forall i, j :: 0 <= i < j < |pasts| ==> pasts[i].fingerprint != pasts[j].fingerprint
  }

  lemma {:induction false} MissingIs(pasts: seq<Past>, current: set<Fingerprint>)
    ensures Fingerprints(FirstMissing(pasts, current)) == Fingerprints(pasts) - current
    ensures NoRepeats(FirstMissing(pasts, current))
  {
    if pasts == [] {
      NothingMissing(current, {}, false);
    } else {
      var n := |pasts| - 1;
      MissingIs(pasts[..n], current);
      var front := FirstMissing(pasts[..n], current);
      assert pasts == pasts[..n] + [pasts[n]];
      OneMoreChosen(pasts[..n], pasts[n], {}, false);
      OneMoreChosen(front, pasts[n], {}, false);
      RepeatFree(front, pasts[n]);
      hide Fingerprints, NoRepeats, Chosen;
    }
  }

  lemma {:induction false} ChosenSplits(pasts: seq<Past>, ran: set<Check>, finished: bool)
    requires NoRepeats(pasts)
    ensures var fixed := Chosen(pasts, ran, finished, true); var others := Chosen(pasts, ran, finished, false);
      && Fingerprints(fixed) + Fingerprints(others) == Fingerprints(pasts) && Fingerprints(fixed) !! Fingerprints(others)
      && |fixed| + |others| == |pasts| && NoRepeats(fixed) && NoRepeats(others) && (!finished ==> fixed == [])
  {
    hide Chosen, Fingerprints, NoRepeats;
    if pasts == [] {
      NothingMissing({}, ran, finished);
    } else {
      var front, last := pasts[..|pasts| - 1], pasts[|pasts| - 1];
      assert pasts == front + [last];
      LastIsNew(front, last);
      ChosenSplits(front, ran, finished);
      var fixed, others := Chosen(front, ran, finished, true), Chosen(front, ran, finished, false);
      assert fixed + [] == fixed && others + [] == others;
      OneMoreChosen(front, last, ran, finished);
      OneMoreChosen(fixed, last, ran, finished);
      OneMoreChosen(others, last, ran, finished);
      RepeatFree(fixed, last);
      RepeatFree(others, last);
    }
  }

  lemma LastIsNew(front: seq<Past>, last: Past)
    requires NoRepeats(front + [last])
    ensures NoRepeats(front) && last.fingerprint !in Fingerprints(front)
  {
    var all := front + [last];
    forall i, j | 0 <= i < j < |front| ensures front[i].fingerprint != front[j].fingerprint {
      assert all[i].fingerprint != all[j].fingerprint;
    }
    forall k | 0 <= k < |front| ensures front[k].fingerprint != last.fingerprint {
      assert all[k].fingerprint != all[|front|].fingerprint;
    }
  }

  lemma RepeatFree(front: seq<Past>, last: Past)
    requires NoRepeats(front)
    ensures last.fingerprint !in Fingerprints(front) ==> NoRepeats(front + [last])
  {
    assert forall k :: 0 <= k < |front| ==> front[k].fingerprint in Fingerprints(front);
  }

  /**
   * Every fingerprint of the baseline is accounted for once: still present, fixed, or not rechecked. Only a finished
   * scan calls anything fixed.
   */
  lemma BaselineIsAccountedFor(pasts: seq<Past>, current: set<Fingerprint>, ran: set<Check>, finished: bool, fingerprint: Fingerprint)
    requires fingerprint in Fingerprints(pasts)
    ensures var missing := FirstMissing(pasts, current);
      var fixed := Chosen(missing, ran, finished, true); var others := Chosen(missing, ran, finished, false);
      && (fingerprint in current || fingerprint in Fingerprints(fixed) || fingerprint in Fingerprints(others))
      && !(fingerprint in current && fingerprint in Fingerprints(fixed)) && !(fingerprint in current && fingerprint in Fingerprints(others))
      && !(fingerprint in Fingerprints(fixed) && fingerprint in Fingerprints(others))
      && NoRepeats(fixed) && NoRepeats(others) && |fixed| + |others| == |Fingerprints(pasts) - current|
      && (!finished ==> fixed == [])
  {
    MissingIs(pasts, current);
    ChosenSplits(FirstMissing(pasts, current), ran, finished);
    DistinctCount(FirstMissing(pasts, current));
  }

  lemma {:induction false} DistinctCount(pasts: seq<Past>)
    requires NoRepeats(pasts)
    ensures |Fingerprints(pasts)| == |pasts|
  {
    if pasts != [] {
      var front, last := pasts[..|pasts| - 1], pasts[|pasts| - 1];
      DistinctCount(front);
      assert pasts == front + [last];
      LastIsNew(front, last);
      OneMoreChosen(front, last, {}, false);
    }
  }

  // --- what becomes of a baseline entry ----------------------------------------------------------------------------

  /** The entry, or one like it, is the first of the baseline with its fingerprint. */
  ghost predicate FirstOfItsKind(pasts: seq<Past>, past: Past) {
    exists i :: 0 <= i < |pasts| && pasts[i] == past
      && forall j :: 0 <= j < i ==> pasts[j].fingerprint != past.fingerprint
  }

  lemma {:induction false} MissingEntry(pasts: seq<Past>, current: set<Fingerprint>, past: Past)
    ensures past in FirstMissing(pasts, current)
       <==> past.fingerprint !in current && FirstOfItsKind(pasts, past)
  {
    if pasts != [] {
      var front, last := pasts[..|pasts| - 1], pasts[|pasts| - 1];
      MissingEntry(front, current, past);
      MissingIs(front, current);
      FirstOfItsKindGrows(front, last, past);
      assert pasts == front + [last];
      hide FirstOfItsKind;
    }
  }

  lemma FirstOfItsKindGrows(front: seq<Past>, last: Past, past: Past)
    ensures FirstOfItsKind(front + [last], past)
       <==> FirstOfItsKind(front, past) || (past == last && last.fingerprint !in Fingerprints(front))
  {
    var all := front + [last];
    if FirstOfItsKind(front, past) {
      var i :| 0 <= i < |front| && front[i] == past && forall j :: 0 <= j < i ==> front[j].fingerprint != past.fingerprint;
      assert all[i] == past && forall j :: 0 <= j < i ==> all[j] == front[j];
    } else if past == last && last.fingerprint !in Fingerprints(front) {
      assert all[|front|] == past && forall j :: 0 <= j < |front| ==> all[j] == front[j];
    }
    if i :| 0 <= i < |all| && all[i] == past && forall j :: 0 <= j < i ==> all[j].fingerprint != past.fingerprint {
      if i < |front| {
        assert front[i] == past && forall j :: 0 <= j < i ==> front[j] == all[j];
      } else {
        forall j | 0 <= j < |front| ensures front[j].fingerprint != past.fingerprint {
          assert all[j] == front[j];
        }
      }
    }
  }

  lemma {:induction false} ChosenEntry(pasts: seq<Past>, ran: set<Check>, finished: bool, fixed: bool, past: Past)
    ensures past in Chosen(pasts, ran, finished, fixed)
       <==> past in pasts && fixed == (finished && past.check in ran)
  {
    if pasts != [] {
      var front, last := pasts[..|pasts| - 1], pasts[|pasts| - 1];
      ChosenEntry(front, ran, finished, fixed, past);
      assert pasts == front + [last];
    }
  }

  /**
   * A baseline entry is reported as fixed if and only if it is the first with its fingerprint, no finding has that
   * fingerprint, and a scan that finished ran its check; otherwise, if missing, as not rechecked.
   */
  lemma FixedIff(pasts: seq<Past>, current: set<Fingerprint>, ran: set<Check>, finished: bool, past: Past)
    ensures var missing := FirstMissing(pasts, current);
      && (past in Chosen(missing, ran, finished, true) <==>
            FirstOfItsKind(pasts, past) && past.fingerprint !in current && finished && past.check in ran)
      && (past in Chosen(missing, ran, finished, false) <==>
            FirstOfItsKind(pasts, past) && past.fingerprint !in current && !(finished && past.check in ran))
  {
    MissingEntry(pasts, current, past);
    hide FirstMissing, Chosen, FirstOfItsKind;
    ChosenEntry(FirstMissing(pasts, current), ran, finished, true, past);
    ChosenEntry(FirstMissing(pasts, current), ran, finished, false, past);
  }
}
