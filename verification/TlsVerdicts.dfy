/** When exactly a probe calls a version or a cipher group enabled, refused or untested, and when the report says so. */
module TlsVerdicts {
  import opened Options
  import opened TlsBytes
  import opened TlsServerHello
  import opened TlsReply
  import opened TlsProbeHello
  import opened TlsRules
  import opened TlsProbes

  // --- "rejected", both ways ---------------------------------------------------------------------------------------

  /** Handshake records that leave the parser waiting are passed over. */
  lemma {:induction false} RecordsArePassedOver(records: seq<Record>, rest: Bytes, handshake: Bytes, left: nat)
    requires Handshakes(records) && |records| <= left
    requires Parsed(handshake + Payloads(records)) == More
    ensures Decided(Sent(records) + rest, handshake, left)
         == Decided(rest, handshake + Payloads(records), left - |records|)
  {
    hide Parsed, Decided, RecordBytes;
    if records == [] {
      assert handshake + [] == handshake && Sent(records) + rest == rest;
    } else {
      var r := records[0];
      var next := handshake + r.payload;
      assert Sent(records) + rest == RecordBytes(r) + (Sent(records[1..]) + rest);
      OneHandshakeRecord(r, Sent(records[1..]) + rest, handshake, left);
      assert handshake + Payloads(records) == next + Payloads(records[1..]);
      if Parsed(next) != More {
        MoreBytesChangeNothing(next, Payloads(records[1..]));
        assert false;
      }
      RecordsArePassedOver(records[1..], rest, next, left - 1);
    }
  }

  /** At most two records of an unfinished handshake message, and then this. */
  ghost predicate Unfinished(records: seq<Record>, rest: Bytes, stream: Bytes) {
    && Handshakes(records) && |records| < MAX_REPLY_RECORDS && Parsed(Payloads(records)) == More
    && stream == Sent(records) + rest
  }

  /** Nothing that makes up a record. */
  predicate Incomplete(rest: Bytes) {
    |rest| < 5 || (HeaderFault(rest).None? && |rest| < 5 + U16At(rest, 3) as int)
  }

  lemma UnfinishedGoesOn(records: seq<Record>, rest: Bytes, stream: Bytes)
    requires Unfinished(records, rest, stream)
    ensures Decided(stream, [], MAX_REPLY_RECORDS)
         == Decided(rest, Payloads(records), MAX_REPLY_RECORDS - |records|)
  {
    hide Decided, Parsed, Payloads, Sent;
    assert [] + Payloads(records) == Payloads(records);
    RecordsArePassedOver(records, rest, [], MAX_REPLY_RECORDS);
  }

  /** Where an alert, or the end of the stream, was met: what comes before it. */
  ghost predicate Met(records: seq<Record>, rest: Bytes, stream: Bytes, handshake: Bytes, left: nat) {
    && Handshakes(records) && |records| < left && Parsed(handshake + Payloads(records)) == More
    && stream == Sent(records) + rest
  }

  lemma MetLater(r: Record, records: seq<Record>, rest: Bytes, stream: Bytes, handshake: Bytes, left: nat)
    requires r.WellFormed() && r.kind == HANDSHAKE_RECORD && left > 0
    requires Met(records, rest, stream, handshake + r.payload, left - 1)
    ensures Met([r] + records, rest, RecordBytes(r) + stream, handshake, left)
  {
    hide Parsed, RecordBytes;
    var all := [r] + records;
    assert all[1..] == records;
    assert Sent(all) + rest == RecordBytes(r) + (Sent(records) + rest);
    assert handshake + Payloads(all) == handshake + r.payload + Payloads(records);
  }

  lemma MetHere(rest: Bytes, handshake: Bytes, left: nat)
    requires Parsed(handshake) == More && left > 0
    ensures Met([], rest, rest, handshake, left)
  {
    hide Parsed;
    assert handshake + [] == handshake && [] + rest == rest;
  }

  /** The alert at the head of a stream. */
  ghost predicate AlertAhead(alert: Record, rest: Bytes, code: Byte) {
    && alert.WellFormed() && alert.kind == ALERT_RECORD && |alert.payload| >= 2 && alert.payload[1] == code
    && RecordBytes(alert) <= rest
  }

  /** A stream that decides nothing, or is decided by an alert, is followed to where it ends or where the alert is. */
  lemma {:induction false} FollowedTo(stream: Bytes, handshake: Bytes, left: nat)
    returns (records: seq<Record>, rest: Bytes, alert: Record)
    requires Parsed(handshake) == More
    requires Decided(stream, handshake, left).None? || Decided(stream, handshake, left).value.Rejected?
    ensures Met(records, rest, stream, handshake, left)
    ensures if Decided(stream, handshake, left).None? then Incomplete(rest)
            else Decided(stream, handshake, left).value.why.Alert?
                 && AlertAhead(alert, rest, Decided(stream, handshake, left).value.why.code)
    decreases left
  {
    hide Parsed, U16At, RecordBytes, HeaderFault, Met;
    assert left > 0;
    OneRecord(stream, handshake, left);
    alert := Record(0, 0, []);
    if Incomplete(stream) {
      records, rest := [], stream;
      MetHere(stream, handshake, left);
      return;
    }
    StreamBeginsWithRecord(stream);
    var r := FirstRecord(stream);
    var later := stream[5 + |r.payload|..];
    if r.kind == HANDSHAKE_RECORD {
      records, rest, alert := FollowedTo(later, handshake + r.payload, left - 1);
      MetLater(r, records, rest, later, handshake, left);
      records := [r] + records;
    } else {
      records, rest, alert := [], stream, r;
      MetHere(stream, handshake, left);
    }
  }

  lemma AlertDecides(alert: Record, rest: Bytes, code: Byte, handshake: Bytes, left: nat)
    requires AlertAhead(alert, rest, code) && left > 0
    ensures Decided(rest, handshake, left) == Some(Rejected(Alert(code)))
  {
    var after := rest[|RecordBytes(alert)|..];
    assert rest == RecordBytes(alert) + after;
    RecordLayout(alert, after);
    OneRecord(rest, handshake, left);
    hide Parsed, Decided, RecordBytes, HeaderFault, U16At;
  }

  lemma IncompleteDecidesNothing(rest: Bytes, handshake: Bytes, left: nat)
    requires Incomplete(rest) && left > 0
    ensures Decided(rest, handshake, left) == None
  {
    OneRecord(rest, handshake, left);
    hide Parsed, Decided, U16At;
  }

  /** An alert comes in time: before the hello is complete, in one of the first three records. */
  ghost predicate AlertComes(stream: Bytes, code: Byte) {
    exists records, rest, alert :: Unfinished(records, rest, stream) && AlertAhead(alert, rest, code)
  }

  /** The stream breaks off inside a record, or between two, before the hello is complete. */
  ghost predicate BreaksOff(stream: Bytes) {
    exists records, rest :: Unfinished(records, rest, stream) && Incomplete(rest)
  }

  lemma AlertIsDecided(stream: Bytes, code: Byte)
    ensures AlertComes(stream, code) <==> Decided(stream, [], MAX_REPLY_RECORDS) == Some(Rejected(Alert(code)))
  {
    assert Parsed([]) == More;
    hide Decided, Parsed, AlertAhead, Payloads, Sent;
    if AlertComes(stream, code) {
      var records, rest, alert :| Unfinished(records, rest, stream) && AlertAhead(alert, rest, code);
      UnfinishedGoesOn(records, rest, stream);
      AlertDecides(alert, rest, code, Payloads(records), MAX_REPLY_RECORDS - |records|);
    }
    if Decided(stream, [], MAX_REPLY_RECORDS) == Some(Rejected(Alert(code))) {
      var records, rest, alert := FollowedTo(stream, [], MAX_REPLY_RECORDS);
      assert [] + Payloads(records) == Payloads(records);
      assert Unfinished(records, rest, stream);
    }
  }

  lemma BreakIsUndecided(stream: Bytes)
    ensures BreaksOff(stream) <==> Decided(stream, [], MAX_REPLY_RECORDS) == None
  {
    assert Parsed([]) == More;
    hide Decided, Parsed, Incomplete, Payloads, Sent;
    if BreaksOff(stream) {
      var records, rest :| Unfinished(records, rest, stream) && Incomplete(rest);
      UnfinishedGoesOn(records, rest, stream);
      IncompleteDecidesNothing(rest, Payloads(records), MAX_REPLY_RECORDS - |records|);
    }
    if Decided(stream, [], MAX_REPLY_RECORDS) == None {
      var records, rest, alert := FollowedTo(stream, [], MAX_REPLY_RECORDS);
      assert [] + Payloads(records) == Payloads(records);
      assert Unfinished(records, rest, stream);
    }
  }

  lemma OnlyAlertsReject(stream: Bytes)
    requires Decided(stream, [], MAX_REPLY_RECORDS).Some? && Decided(stream, [], MAX_REPLY_RECORDS).value.Rejected?
    ensures Decided(stream, [], MAX_REPLY_RECORDS).value.why.Alert?
  {
    assert Parsed([]) == More;
    hide Decided, Parsed;
    var records, rest, alert := FollowedTo(stream, [], MAX_REPLY_RECORDS);
  }

  /**
   * "Rejected" exactly: by an alert that comes before the hello is complete, by a reset before anything is decided, or
   * by a close without a byte; and each of these is reported as what it is.
   */
  lemma RejectedIff(stream: Bytes, ending: Ending)
    ensures forall code :: ReplyOf(stream, ending) == Rejected(Alert(code)) <==> AlertComes(stream, code)
    ensures ReplyOf(stream, ending) == Rejected(ConnectionReset) <==> ending == Reset && BreaksOff(stream)
    ensures ReplyOf(stream, ending) == Rejected(HungUp) <==> ending == Closed && stream == []
  {
    forall code ensures ReplyOf(stream, ending) == Rejected(Alert(code)) <==> AlertComes(stream, code) {
      AlertIsDecided(stream, code);
      hide Decided, AlertComes;
    }
    BreakIsUndecided(stream);
    assert Decided([], [], MAX_REPLY_RECORDS) == None;
    hide Decided, BreaksOff, AlertComes;
    if Decided(stream, [], MAX_REPLY_RECORDS).Some? && Decided(stream, [], MAX_REPLY_RECORDS).value.Rejected? {
      OnlyAlertsReject(stream);
    }
  }

  // --- the verdict on one probe ------------------------------------------------------------------------------------

  /** The server answered the connection with a hello that selects these. */
  predicate Answers(attempt: Attempt, version: Word, suite: Word) {
    attempt.Answered? && ReplyOf(attempt.stream, attempt.ending) == Accepted(version, suite)
  }

  /** What the probe is about: its version, under the name of its rule, or one of the suites of its group. */
  predicate AskedFor(probe: Probe, version: Word, suite: Word) {
    match probe
    case OfProtocol(p) => VersionName(version) == Some(p.name)
    case OfGroup(g) => suite in g.suites
  }

  /** The server refused the connection after the hello. */
  predicate SaidNo(attempt: Attempt) {
    attempt.SendReset? || (attempt.Answered? && ReplyOf(attempt.stream, attempt.ending).Rejected?)
  }

  /** Why an attempt says nothing about what was asked. */
  predicate Unclear(probe: Probe, attempt: Attempt, why: Trouble) {
    || (why == CannotConnect && attempt.Unreachable?)
    || (why == CannotSend && attempt.SendFailed?)
    || (why == NoUsableReply && attempt.Answered? && ReplyOf(attempt.stream, attempt.ending).Error?)
    || (why == NotOffered && probe.OfGroup? && attempt.Answered? && ReplyOf(attempt.stream, attempt.ending).Accepted?
        && ReplyOf(attempt.stream, attempt.ending).suite !in probe.group.suites)
  }

  /**
   * The verdict exactly. Enabled if and only if the server chose what was asked for; refused if and only if it said no
   * or, for a version, chose another one; untested, with that reason, if and only if the attempt says nothing.
   */
  lemma VerdictIs(probe: Probe, attempt: Attempt)
    ensures forall v, s :: ProbeVerdict(probe, Tried(attempt)) == Enabled(v, s)
                      <==> Answers(attempt, v, s) && AskedFor(probe, v, s)
    ensures ProbeVerdict(probe, Tried(attempt)) == Refused
       <==> SaidNo(attempt)
            || (probe.OfProtocol? && exists v, s :: Answers(attempt, v, s) && !AskedFor(probe, v, s))
    ensures forall why :: ProbeVerdict(probe, Tried(attempt)) == Untested(why) <==> Unclear(probe, attempt, why)
  {
    hide ReplyOf, VersionName;
    if attempt.Answered? {
      var reply := ReplyOf(attempt.stream, attempt.ending);
      if reply.Accepted? {
        assert Answers(attempt, reply.version, reply.suite);
      }
    }
  }

  /** For a rule that is named after its version, that is: enabled if and only if the server chose that very version. */
  lemma ProtocolIsEnabledIff(p: ProtocolProbe, attempt: Attempt)
    requires VersionName(p.version) == Some(p.name)
    ensures ProbeVerdict(OfProtocol(p), Tried(attempt)).Enabled?
       <==> exists suite :: Answers(attempt, p.version, suite)
  {
    VerdictIs(OfProtocol(p), attempt);
    hide Answers, Tried, ProbeVerdict;
    var verdict := ProbeVerdict(OfProtocol(p), Tried(attempt));
    if verdict.Enabled? {
      assert Answers(attempt, verdict.version, verdict.suite);
      assert verdict.version == p.version;
    }
    if suite :| Answers(attempt, p.version, suite) {
      assert AskedFor(OfProtocol(p), p.version, suite);
      assert verdict == Enabled(p.version, suite);
    }
  }

  // --- every rule is probed ----------------------------------------------------------------------------------------

  lemma {:induction false} GroupsArePlanned(groups: seq<CipherGroup>, i: nat)
    requires i < |groups|
    ensures OfGroup(groups[i]) in GroupPlan(groups) || groups[i].suites == []
  {
    var front := groups[..|groups| - 1];
    if i < |front| {
      assert front[i] == groups[i];
      GroupsArePlanned(front, i);
    }
  }

  /** Each version in the rules is planned, and each group that has suites. */
  lemma EveryRuleIsPlanned(rules: Rules)
    ensures forall i :: 0 <= i < |rules.protocols| ==> OfProtocol(rules.protocols[i]) in Plan(rules)
    ensures forall i :: 0 <= i < |rules.groups| && rules.groups[i].suites != [] ==> OfGroup(rules.groups[i]) in Plan(rules)
  {
    forall i | 0 <= i < |rules.protocols| ensures OfProtocol(rules.protocols[i]) in Plan(rules) {
      assert Plan(rules)[i] == OfProtocol(rules.protocols[i]);
    }
    forall i | 0 <= i < |rules.groups| && rules.groups[i].suites != [] ensures OfGroup(rules.groups[i]) in Plan(rules) {
      GroupsArePlanned(rules.groups, i);
    }
  }

  /** A server that answers this hello, in up to three records, whatever it sends after them. */
  ghost predicate SendsHello(attempt: Attempt, h: ServerHello) {
    && attempt.Answered? && h.WellFormed() && KnownVersion(SelectedVersion(h))
    && exists records, extra, after :: Handshakes(records) && |records| <= MAX_REPLY_RECORDS
         && Payloads(records) == HelloBytes(h) + extra && attempt.stream == Sent(records) + after
  }

  lemma HelloAnswers(attempt: Attempt, h: ServerHello)
    requires SendsHello(attempt, h)
    ensures Answers(attempt, SelectedVersion(h), h.suite)
  {
    hide HelloBytes, SelectedVersion, ReplyOf, Payloads, Sent;
    var records, extra, after :| Handshakes(records) && |records| <= MAX_REPLY_RECORDS
      && Payloads(records) == HelloBytes(h) + extra && attempt.stream == Sent(records) + after;
    FragmentedHelloIsAccepted(h, records, extra, after, attempt.ending);
  }

  /**
   * From the wire to the report: in a complete report, a planned probe that the server answers with a hello choosing what
   * was asked for is enabled, with that version and suite, provided every connection before it could be opened.
   */
  lemma ChosenIsReported(world: World, plan: seq<Probe>, results: map<Key, ProbeResult>, n: nat, k: nat, h: ServerHello)
    requires Complete(world, plan, results, n) && k < |plan|
    requires forall j :: 0 <= j < k ==> !Fails(world, plan, j)
    requires !Aborts(world, plan, k) && SendsHello(AttemptAt(world, plan, k), h)
    requires AskedFor(plan[k], SelectedVersion(h), h.suite)
    ensures KeyOf(plan[k]) in results && results[KeyOf(plan[k])] == Enabled(SelectedVersion(h), h.suite)
  {
    hide KeyOf, Aborts, AttemptAt, SelectedVersion, AskedFor, SendsHello, Tried, ProbeVerdict;
    HelloAnswers(AttemptAt(world, plan, k), h);
    VerdictIs(plan[k], AttemptAt(world, plan, k));
    assert k < n;
    assert results[KeyOf(plan[k])] == Reported(world, plan, n, k);
  }
}
