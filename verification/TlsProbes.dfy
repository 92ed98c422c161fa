/** The driver: one connection for each protocol version and each weak cipher group in the rules. */
module TlsProbes {
  import opened Options
  import opened TlsBytes
  import opened TlsServerHello
  import opened TlsReply
  import opened TlsProbeHello
  import opened TlsRules

  type Bytes32 = b: Bytes | |b| == 32 witness seq(32, _ => 0)

  datatype Draw = Draw(random: Bytes32, id: Bytes32, key: Bytes32)

  /** What a connection attempt leads to. */
  datatype Attempt = Unreachable | SendReset | SendFailed | Answered(stream: Bytes, ending: Ending)

  /** Everything outside the driver: the server, the pieces `recv` returns, the random draws and the scan's limiter. */
  datatype World = World(peer: (nat, Bytes) -> Attempt, pieces: nat -> nat -> nat, name: Option<Bytes>,
                         draw: nat -> Draw, allows: nat -> bool)

  datatype Trouble = CannotConnect | CannotSend | NoUsableReply | NotOffered | OverBudget | Stopped
  datatype ProbeResult = Enabled(version: Word, suite: Word) | Refused | Untested(why: Trouble)

  datatype Probe = OfProtocol(protocol: ProtocolProbe) | OfGroup(group: CipherGroup)
  datatype Key = ProtocolKey(name: Name) | GroupKey(id: Name)

  function KeyOf(probe: Probe): Key {
    match probe
    case OfProtocol(p) => ProtocolKey(p.name)
    case OfGroup(g) => GroupKey(g.id)
  }

  // --- one probe ------------------------------------------------------------------------------------------------

  function VersionName(version: Word): Option<Name> {
    if version == 0x0300 then Some(SSLv3)
    else if version == 0x0301 then Some(TLSv1)
    else if version == 0x0302 then Some(TLSv1_1)
    else if version == 0x0303 then Some(TLSv1_2)
    else if version == 0x0304 then Some(TLSv1_3)
    else None
  }

  function HelloFor(world: World, probe: Probe, n: nat): Option<Bytes> {
    var draw := world.draw(n);
    match probe
    case OfProtocol(p) => ProtocolHello(p, world.name, draw.random, draw.id, draw.key)
    case OfGroup(g) => GroupHello(g, world.name, draw.random)
  }

  function FromReply(reply: Reply): ProbeResult {
    match reply
    case Accepted(version, suite) => Enabled(version, suite)
    case Rejected(_) => Refused
    case Error(_) => Untested(NoUsableReply)
  }

  function Tried(attempt: Attempt): ProbeResult {
    match attempt
    case Unreachable => Untested(CannotConnect)
    case SendReset => Refused
    case SendFailed => Untested(CannotSend)
    case Answered(stream, ending) => FromReply(ReplyOf(stream, ending))
  }

  /** A lower version than the one offered means that one is off; a suite that was not offered means nothing. */
  function ProbeVerdict(probe: Probe, result: ProbeResult): ProbeResult {
    match probe
    case OfProtocol(p) => if result.Enabled? && VersionName(result.version) != Some(p.name) then Refused else result
    case OfGroup(g) => if result.Enabled? && result.suite !in g.suites then Untested(NotOffered) else result
  }

  // --- the plan ---------------------------------------------------------------------------------------------------

  function ProtocolPlan(protocols: seq<ProtocolProbe>): (plan: seq<Probe>)
    ensures |plan| == |protocols| && forall k :: 0 <= k < |plan| ==> plan[k] == OfProtocol(protocols[k])
  {
    seq(|protocols|, k requires 0 <= k < |protocols| => OfProtocol(protocols[k]))
  }

  function GroupPlan(groups: seq<CipherGroup>): seq<Probe> {
    if groups == [] then []
    else
      var last := groups[|groups| - 1];
      GroupPlan(groups[..|groups| - 1]) + if last.suites != [] then [OfGroup(last)] else []
  }

  function Plan(rules: Rules): seq<Probe> {
    ProtocolPlan(rules.protocols) + GroupPlan(rules.groups)
  }

  function Budget(rules: Rules): nat {
    if rules.maxConnections > CERTIFICATE_CONNECTIONS then rules.maxConnections - CERTIFICATE_CONNECTIONS else 0
  }

  // --- what a run amounts to ----------------------------------------------------------------------------------------

  /** The limiter ends the scan at this probe, or its hello cannot be built. */
  predicate Aborts(world: World, plan: seq<Probe>, n: nat)
    requires n < |plan|
  {
    !world.allows(n) || HelloFor(world, plan[n], n).None?
  }

  function AttemptAt(world: World, plan: seq<Probe>, n: nat): Attempt
    requires n < |plan| && !Aborts(world, plan, n)
  {
    world.peer(n, HelloFor(world, plan[n], n).value)
  }

  predicate Fails(world: World, plan: seq<Probe>, n: nat)
    requires n < |plan|
  {
    !Aborts(world, plan, n) && AttemptAt(world, plan, n).Unreachable?
  }

  /** All connections before this probe could be opened, and the budget has room for one more. */
  predicate Reached(world: World, plan: seq<Probe>, budget: nat, n: nat) {
    n < |plan| && n < budget && forall j :: 0 <= j < n ==> !Aborts(world, plan, j) && !Fails(world, plan, j)
  }

  predicate StoppedBefore(world: World, plan: seq<Probe>, budget: nat, n: nat) {
    exists j :: 0 <= j < n && Reached(world, plan, budget, j) && Fails(world, plan, j)
  }

  /** A probe whose grant was refused, or whose hello could not be built: it is asked for and nothing is connected. */
  ghost predicate EndedAt(world: World, plan: seq<Probe>, budget: nat, n: nat, events: seq<Event>) {
    && Reached(world, plan, budget, n) && Aborts(world, plan, n)
    && events == EventsOf(world, plan, n) + (if n > 0 then [Pause] else []) + [Acquire]
  }

  predicate RunAborts(world: World, plan: seq<Probe>, budget: nat) {
    exists n :: 0 <= n < |plan| && Reached(world, plan, budget, n) && Aborts(world, plan, n)
  }

  /** The result of one planned probe, from the rules and the world alone; of use only when the run does not abort. */
  function ResultAt(world: World, plan: seq<Probe>, budget: nat, n: nat): ProbeResult
    requires n < |plan|
  {
    if StoppedBefore(world, plan, budget, n) then Untested(Stopped)
    else if n >= budget then Untested(OverBudget)
    else if Aborts(world, plan, n) then Untested(Stopped)
    else ProbeVerdict(plan[n], Tried(AttemptAt(world, plan, n)))
  }

  /** The probes reached, without an abort, are the first `connections` of the plan. */
  ghost predicate Ran(world: World, plan: seq<Probe>, budget: nat, connections: nat) {
    && connections <= |plan|
    && (forall n :: 0 <= n < |plan| ==> (Reached(world, plan, budget, n) <==> n < connections))
    && (forall n :: 0 <= n < connections ==> !Aborts(world, plan, n))
  }

  /** What the driver does to the world outside, in order. */
  datatype Event = Pause | Acquire | Connect(hello: Bytes)

  function EventsOf(world: World, plan: seq<Probe>, connections: nat): seq<Event>
    requires connections <= |plan| && forall j :: 0 <= j < connections ==> !Aborts(world, plan, j)
  {
    if connections == 0 then []
    else
      var n := connections - 1;
      assert !Aborts(world, plan, n);
      EventsOf(world, plan, n) + (if n > 0 then [Pause] else []) + [Acquire, Connect(HelloFor(world, plan[n], n).value)]
  }

  ghost predicate LastOfKey(plan: seq<Probe>, n: nat)
    requires n < |plan|
  {
    forall j :: n < j < |plan| ==> KeyOf(plan[j]) != KeyOf(plan[n])
  }

  /** The results of the first `upTo` planned probes; for a key planned twice, the last one. */
  ghost predicate Recorded(world: World, plan: seq<Probe>, budget: nat, upTo: nat, results: map<Key, ProbeResult>)
    requires upTo <= |plan|
  {
    && (forall key :: key in results ==> exists k :: 0 <= k < upTo && KeyOf(plan[k]) == key)
    && forall k :: 0 <= k < upTo ==>
         && KeyOf(plan[k]) in results
         && (LastOfKey(plan[..upTo], k) ==> results[KeyOf(plan[k])] == ResultAt(world, plan, budget, k))
  }

  // --- the driver as it is written ---------------------------------------------------------------------------------

  datatype Outcome = Report(results: map<Key, ProbeResult>, connections: nat) | ScanEnded

  method BuildPlan(rules: Rules) returns (plan: seq<Probe>)
    ensures plan == Plan(rules)
  {
    plan := [];
    for i := 0 to |rules.protocols|
      invariant plan == ProtocolPlan(rules.protocols)[..i]
    {
      plan := plan + [OfProtocol(rules.protocols[i])];
    }
    var groups := rules.groups;
    for i := 0 to |groups|
      invariant plan == ProtocolPlan(rules.protocols) + GroupPlan(groups[..i])
    {
      assert groups[..i + 1][..i] == groups[..i];
      if groups[i].suites != [] {
        plan := plan + [OfGroup(groups[i])];
      }
    }
    assert groups[..|groups|] == groups;
  }

  /** One probe: the result, and whether the connection could be opened at all. */
  method ProbeOnce(world: World, hello: Bytes, n: nat) returns (result: ProbeResult, connected: bool)
    ensures result == Tried(world.peer(n, hello)) && connected == !world.peer(n, hello).Unreachable?
  {
    match world.peer(n, hello) {
      case Unreachable => return Untested(CannotConnect), false;
      case SendReset => return Refused, true;
      case SendFailed => return Untested(CannotSend), true;
      case Answered(stream, ending) =>
        var sock := new Socket(stream, ending, world.pieces(n));
        var reply := ReadReply(sock);
        return FromReply(reply), true;
    }
  }

  method RunProbes(rules: Rules, world: World) returns (outcome: Outcome, events: seq<Event>)
    ensures outcome.ScanEnded? <==> RunAborts(world, Plan(rules), Budget(rules))
    ensures outcome.ScanEnded? ==> exists n :: EndedAt(world, Plan(rules), Budget(rules), n, events)
    ensures outcome.Report? ==>
      && Recorded(world, Plan(rules), Budget(rules), |Plan(rules)|, outcome.results)
      && Ran(world, Plan(rules), Budget(rules), outcome.connections)
      && events == EventsOf(world, Plan(rules), outcome.connections)
  {
    var plan := BuildPlan(rules);
    var budget := Budget(rules);
    hide HelloFor, Tried, ProbeVerdict, Plan, Budget, Recorded, ResultAt;
    var results: map<Key, ProbeResult>, connections: nat, stopped := map[], 0, false;
    events := [];
    NothingRecorded(world, plan, budget);
    for i := 0 to |plan|
      invariant connections <= i && connections <= budget
      invariant forall j :: 0 <= j < connections ==> Reached(world, plan, budget, j) && !Aborts(world, plan, j)
      invariant forall j :: 0 <= j < connections - 1 ==> !Fails(world, plan, j)
      invariant stopped <==> connections > 0 && Fails(world, plan, connections - 1)
      invariant !stopped ==> connections == if i < budget then i else budget
      invariant events == EventsOf(world, plan, connections)
      invariant Recorded(world, plan, budget, i, results)
    {
      var probe := plan[i];
      var result;
      if stopped {
        StoppedHere(world, plan, budget, i, connections - 1);
        result := Untested(Stopped);
      } else if connections >= budget {
        BudgetSpent(world, plan, budget, i, connections);
        result := Untested(OverBudget);
      } else {
        assert Reached(world, plan, budget, i);
        if connections > 0 {
          events := events + [Pause];
        }
        events := events + [Acquire];
        if !world.allows(connections) {
          assert EndedAt(world, plan, budget, i, events);
          return ScanEnded, events;
        }
        connections := connections + 1;
        var hello := HelloFor(world, probe, i);
        if hello.None? {
          assert EndedAt(world, plan, budget, i, events);
          return ScanEnded, events;
        }
        events := events + [Connect(hello.value)];
        var connected;
        result, connected := ProbeOnce(world, hello.value, i);
        stopped := !connected;
        result := ProbeVerdict(probe, result);
        ReachedHere(world, plan, budget, i);
        assert EventsOf(world, plan, i + 1) == events;
      }
      OneMoreRecorded(world, plan, budget, i, results, result);
      results := results[KeyOf(probe) := result];
    }
    outcome := Report(results, connections);
    forall n | 0 <= n < |plan| ensures Reached(world, plan, budget, n) <==> n < connections {
      if n >= connections && stopped {
        assert Fails(world, plan, connections - 1);
      }
    }
  }

  lemma NothingRecorded(world: World, plan: seq<Probe>, budget: nat)
    ensures Recorded(world, plan, budget, 0, map[])
  {
  }

  lemma StoppedHere(world: World, plan: seq<Probe>, budget: nat, n: nat, j: nat)
    requires n < |plan| && j < n && Reached(world, plan, budget, j) && Fails(world, plan, j)
    ensures ResultAt(world, plan, budget, n) == Untested(Stopped)
  {
  }

  lemma BudgetSpent(world: World, plan: seq<Probe>, budget: nat, n: nat, connections: nat)
    requires connections <= n < |plan| && connections == budget
    requires forall j :: 0 <= j < connections ==> !Fails(world, plan, j)
    ensures ResultAt(world, plan, budget, n) == Untested(OverBudget)
  {
    hide Aborts, Fails;
  }

  lemma ReachedHere(world: World, plan: seq<Probe>, budget: nat, n: nat)
    requires Reached(world, plan, budget, n) && !Aborts(world, plan, n)
    ensures ResultAt(world, plan, budget, n) == ProbeVerdict(plan[n], Tried(AttemptAt(world, plan, n)))
  {
    hide Aborts, Tried, ProbeVerdict;
  }

  lemma OneMoreRecorded(world: World, plan: seq<Probe>, budget: nat, n: nat, results: map<Key, ProbeResult>,
                        result: ProbeResult)
    requires n < |plan| && Recorded(world, plan, budget, n, results) && result == ResultAt(world, plan, budget, n)
    ensures Recorded(world, plan, budget, n + 1, results[KeyOf(plan[n]) := result])
  {
    hide ResultAt, KeyOf;
    var after := results[KeyOf(plan[n]) := result];
    forall key | key in after ensures exists k :: 0 <= k < n + 1 && KeyOf(plan[k]) == key {
      if key in results {
        var k :| 0 <= k < n && KeyOf(plan[k]) == key;
      } else {
        assert KeyOf(plan[n]) == key;
      }
    }
    forall k | 0 <= k < n + 1
      ensures KeyOf(plan[k]) in after
      ensures LastOfKey(plan[..n + 1], k) ==> after[KeyOf(plan[k])] == ResultAt(world, plan, budget, k)
    {
      if k < n && LastOfKey(plan[..n + 1], k) {
        assert plan[..n + 1][n] == plan[n];
        forall j | k < j < n ensures KeyOf(plan[..n][j]) != KeyOf(plan[..n][k]) {
          assert plan[..n + 1][j] == plan[j];
        }
      }
    }
  }

  // --- what loading the rules guarantees ---------------------------------------------------------------------------

  lemma {:induction false} GroupPlanSize(raws: seq<RawGroup>)
    requires forall k :: 0 <= k < |raws| ==> GroupOk(raws[k])
    ensures |GroupPlan(GroupsOf(raws))| == Probed(raws)
  {
    hide GroupOk, GroupOf;
    if raws != [] {
      var front := raws[..|raws| - 1];
      GroupPlanSize(front);
      assert GroupsOf(raws)[..|raws| - 1] == GroupsOf(front);
      GroupIsNamed(raws[|raws| - 1]);
    }
  }

  /** The budget of loaded rules covers the whole plan. */
  lemma LoadedPlanFits(raw: RawRules)
    requires Acceptable(raw)
    ensures |Plan(RulesOf(raw))| <= Budget(RulesOf(raw))
  {
    hide ProtocolOk, GroupOk, Probed, GroupPlan, Distinct;
    GroupPlanSize(raw.groups);
  }

  predicate FromGroups(probe: Probe, groups: seq<CipherGroup>) {
    probe.OfGroup? && probe.group in groups
  }

  /** Without a repeated id no group is planned twice. */
  lemma {:induction false} GroupsPlannedOnce(groups: seq<CipherGroup>)
    requires forall i, j :: 0 <= i < j < |groups| ==> groups[i].id != groups[j].id
    ensures forall probe :: probe in GroupPlan(groups) ==> FromGroups(probe, groups)
    ensures forall j, k :: 0 <= j < k < |GroupPlan(groups)| ==> KeyOf(GroupPlan(groups)[j]) != KeyOf(GroupPlan(groups)[k])
  {
    if groups != [] {
      var front, last := groups[..|groups| - 1], groups[|groups| - 1];
      GroupsPlannedOnce(front);
      forall probe | FromGroups(probe, front) ensures FromGroups(probe, groups) && KeyOf(probe) != GroupKey(last.id) {
        var i :| 0 <= i < |front| && front[i] == probe.group;
        assert groups[i] == probe.group;
      }
      var before := GroupPlan(front);
      assert forall k :: 0 <= k < |before| ==> before[k] in before;
    }
  }

  lemma LoadedNamesDiffer(raw: RawRules)
    requires Acceptable(raw)
    ensures var rules := RulesOf(raw);
      && (forall i, j :: 0 <= i < j < |rules.protocols| ==> rules.protocols[i].name != rules.protocols[j].name)
      && (forall i, j :: 0 <= i < j < |rules.groups| ==> rules.groups[i].id != rules.groups[j].id)
  {
    var rules := RulesOf(raw);
    forall i, j | 0 <= i < j < |rules.protocols| ensures rules.protocols[i].name != rules.protocols[j].name {
      assert Names(raw.protocols)[i] != Names(raw.protocols)[j];
    }
    forall i, j | 0 <= i < j < |rules.groups| ensures rules.groups[i].id != rules.groups[j].id {
      assert Ids(raw.groups)[i] != Ids(raw.groups)[j];
    }
  }

  /** Loaded rules plan every key once. */
  lemma LoadedKeysDiffer(raw: RawRules, j: nat, k: nat)
    requires Acceptable(raw) && j < k < |Plan(RulesOf(raw))|
    ensures KeyOf(Plan(RulesOf(raw))[j]) != KeyOf(Plan(RulesOf(raw))[k])
  {
    LoadedNamesDiffer(raw);
    var rules := RulesOf(raw);
    hide Acceptable, RulesOf, GroupPlan;
    GroupsPlannedOnce(rules.groups);
    var groups := GroupPlan(rules.groups);
    assert forall i :: 0 <= i < |groups| ==> groups[i] in groups;
    if k >= |rules.protocols| {
      assert Plan(rules)[k] == groups[k - |rules.protocols|];
      if j >= |rules.protocols| {
        assert Plan(rules)[j] == groups[j - |rules.protocols|];
      }
    }
  }

  // --- what a report means -----------------------------------------------------------------------------------------

  /** The server sent a hello that selects what the report says, in answer to this connection. */
  ghost predicate ServerChose(attempt: Attempt, version: Word, suite: Word) {
    attempt.Answered? && exists records, h :: WasSent(records, h, attempt.stream, Accepted(version, suite))
  }

  /** The result of probe `k` when `n` connections were opened. */
  function Reported(world: World, plan: seq<Probe>, n: nat, k: nat): ProbeResult
    requires k < |plan| && (k < n ==> !Aborts(world, plan, k))
  {
    if k < n then ProbeVerdict(plan[k], Tried(AttemptAt(world, plan, k))) else Untested(Stopped)
  }

  /**
   * A report with `n` connections: exactly one result for each planned key; those connected to have the verdict on
   * what the server did, and the others, if any, come after the one connection that could not be opened.
   */
  ghost predicate Complete(world: World, plan: seq<Probe>, results: map<Key, ProbeResult>, n: nat) {
    && n <= |plan| && (forall j :: 0 <= j < n ==> !Aborts(world, plan, j))
    && (forall key :: key in results <==> exists k :: 0 <= k < |plan| && KeyOf(plan[k]) == key)
    && (forall k :: 0 <= k < |plan| ==> results[KeyOf(plan[k])] == Reported(world, plan, n, k))
    && (forall k :: 0 <= k < n - 1 ==> !Fails(world, plan, k))
    && (n < |plan| ==> n > 0 && Fails(world, plan, n - 1))
  }

  /**
   * Loading the rules and probing with them: a report is complete - no key is missing for lack of budget, and nothing
   * is connected after a connection that could not be opened - and each connection took one grant of the limiter.
   */
  method LoadAndProbe(raw: RawRules, world: World) returns (outcome: Option<Outcome>, events: seq<Event>)
    ensures outcome.Some? <==> Acceptable(raw)
    ensures outcome.Some? && outcome.value.Report? ==>
      var plan := Plan(RulesOf(raw)); var n := outcome.value.connections;
      Complete(world, plan, outcome.value.results, n) && events == EventsOf(world, plan, n)
  {
    var rules := Load(raw);
    if rules.None? {
      return None, [];
    }
    var result;
    result, events := RunProbes(rules.value, world);
    outcome := Some(result);
    LoadedPlanFits(raw);
    forall k | 0 <= k < |Plan(rules.value)| ensures LastOfKey(Plan(rules.value), k) {
      forall j | k < j < |Plan(rules.value)| ensures KeyOf(Plan(rules.value)[j]) != KeyOf(Plan(rules.value)[k]) {
        LoadedKeysDiffer(raw, k, j);
      }
    }
    hide Acceptable, RulesOf, Plan, Budget, Reached, Aborts, Fails, Recorded, LastOfKey, Complete, EventsOf, RunAborts, Ran;
    if result.Report? {
      ReportIsComplete(world, Plan(rules.value), Budget(rules.value), result.results, result.connections);
    }
  }

  lemma ResultIs(world: World, plan: seq<Probe>, budget: nat, results: map<Key, ProbeResult>, k: nat)
    requires Recorded(world, plan, budget, |plan|, results) && k < |plan| && LastOfKey(plan, k)
    ensures KeyOf(plan[k]) in results && results[KeyOf(plan[k])] == ResultAt(world, plan, budget, k)
  {
    hide KeyOf, ResultAt, LastOfKey;
    assert plan[..|plan|] == plan;
  }

  lemma KeysAre(world: World, plan: seq<Probe>, budget: nat, results: map<Key, ProbeResult>, key: Key)
    requires Recorded(world, plan, budget, |plan|, results)
    ensures key in results <==> exists k :: 0 <= k < |plan| && KeyOf(plan[k]) == key
  {
    hide ResultAt, LastOfKey, KeyOf;
  }

  lemma ResultIsReported(world: World, plan: seq<Probe>, budget: nat, n: nat, k: nat)
    requires k < |plan| && Ran(world, plan, budget, n) && (n < |plan| ==> n > 0 && Fails(world, plan, n - 1))
    ensures ResultAt(world, plan, budget, k) == Reported(world, plan, n, k)
  {
    hide ResultAt, Aborts, Fails, Reached, Tried, ProbeVerdict;
    if k < n {
      ReachedHere(world, plan, budget, k);
    } else {
      StoppedHere(world, plan, budget, k, n - 1);
    }
  }

  lemma ReportIsComplete(world: World, plan: seq<Probe>, budget: nat, results: map<Key, ProbeResult>, n: nat)
    requires |plan| <= budget && Ran(world, plan, budget, n) && Recorded(world, plan, budget, |plan|, results)
    requires forall k :: 0 <= k < |plan| ==> LastOfKey(plan, k)
    ensures Complete(world, plan, results, n)
  {
    OnlyLastFails(world, plan, budget, n);
    assert forall k :: 0 <= k < n ==> !Aborts(world, plan, k);
    hide KeyOf, ResultAt, Reported, Reached, Fails, Aborts, LastOfKey, Recorded, Ran;
    forall k | 0 <= k < |plan| ensures KeyOf(plan[k]) in results && results[KeyOf(plan[k])] == Reported(world, plan, n, k) {
      ResultIs(world, plan, budget, results, k);
      ResultIsReported(world, plan, budget, n, k);
    }
    forall key ensures key in results <==> exists k :: 0 <= k < |plan| && KeyOf(plan[k]) == key {
      KeysAre(world, plan, budget, results, key);
    }
  }

  lemma OnlyLastFails(world: World, plan: seq<Probe>, budget: nat, n: nat)
    requires |plan| <= budget && Ran(world, plan, budget, n)
    ensures forall k :: 0 <= k < n - 1 ==> !Fails(world, plan, k)
    ensures n < |plan| ==> n > 0 && Fails(world, plan, n - 1)
  {
    hide Aborts, Fails;
    if n > 0 {
      assert Reached(world, plan, budget, n - 1);
    }
    if n < |plan| {
      assert !Reached(world, plan, budget, n);
    }
  }

  /** "Enabled" is the server's own choice: the version that was asked about, or a suite of the group asked about. */
  lemma EnabledWasChosen(probe: Probe, attempt: Attempt)
    requires ProbeVerdict(probe, Tried(attempt)).Enabled?
    ensures var result := ProbeVerdict(probe, Tried(attempt));
      && ServerChose(attempt, result.version, result.suite)
      && match probe
         case OfProtocol(p) => VersionName(result.version) == Some(p.name)
         case OfGroup(g) => result.suite in g.suites
  {
    hide ReplyOf, WasSent;
    AcceptedWasSent(attempt.stream, attempt.ending);
  }

  lemma {:induction false} CodesAreShared(raws: seq<RawGroup>, i: nat, code: Word)
    requires i < |raws| && Some(code) in Codes(raws[i].suites)
    ensures Some(code) in AllCodes(raws)
  {
    var front := raws[..|raws| - 1];
    if i < |front| {
      assert front[i] == raws[i];
      CodesAreShared(front, i, code);
    }
  }

  lemma {:induction false} GroupsShareNothing(raws: seq<RawGroup>, i: nat, j: nat, code: Word)
    requires i < j < |raws| && Distinct(AllCodes(raws)) && Some(code) in Codes(raws[i].suites)
    ensures Some(code) !in Codes(raws[j].suites)
  {
    var front, last := raws[..|raws| - 1], Codes(raws[|raws| - 1].suites);
    assert front[i] == raws[i];
    if j < |front| {
      assert front[j] == raws[j];
      DistinctPrefix(AllCodes(front), last);
      GroupsShareNothing(front, i, j, code);
    } else {
      CodesAreShared(front, i, code);
      var a :| 0 <= a < |AllCodes(front)| && AllCodes(front)[a] == Some(code);
      forall b | 0 <= b < |last| ensures last[b] != Some(code) {
        assert AllCodes(raws)[a] != AllCodes(raws)[|AllCodes(front)| + b];
      }
    }
  }

  /** With loaded rules, one suite can never show two groups to be enabled. */
  lemma EnabledGroupsDiffer(raw: RawRules, i: nat, j: nat, first: Attempt, second: Attempt)
    requires Acceptable(raw) && i < j < |RulesOf(raw).groups|
    requires ProbeVerdict(OfGroup(RulesOf(raw).groups[i]), Tried(first)).Enabled?
    requires ProbeVerdict(OfGroup(RulesOf(raw).groups[j]), Tried(second)).Enabled?
    ensures ProbeVerdict(OfGroup(RulesOf(raw).groups[i]), Tried(first)).suite
         != ProbeVerdict(OfGroup(RulesOf(raw).groups[j]), Tried(second)).suite
  {
    var groups := RulesOf(raw).groups;
    var a, b := ProbeVerdict(OfGroup(groups[i]), Tried(first)).suite, ProbeVerdict(OfGroup(groups[j]), Tried(second)).suite;
    EnabledWasChosen(OfGroup(groups[i]), first);
    EnabledWasChosen(OfGroup(groups[j]), second);
    hide ProbeVerdict, Tried, Distinct, ServerChose;
    CodeInFile(raw.groups[i], a);
    CodeInFile(raw.groups[j], b);
    if a == b {
      GroupsShareNothing(raw.groups, i, j, a);
    }
  }

  lemma CodeInFile(g: RawGroup, code: Word)
    requires GroupOk(g) && code in GroupOf(g).suites
    ensures Some(code) in Codes(g.suites)
  {
    var k :| 0 <= k < |GroupOf(g).suites| && GroupOf(g).suites[k] == code;
    assert Codes(g.suites)[k] == Some(code);
  }
}
