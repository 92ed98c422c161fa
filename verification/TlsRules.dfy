/** The validation of the probe rules, and what it guarantees to the driver. */
module TlsRules {
  import opened Options
  import opened TlsBytes
  import opened TlsProbeHello

  const CERTIFICATE_CONNECTIONS := 2
  const MAX_CONNECTIONS_CEILING := 100

  datatype Rules = Rules(maxConnections: int, protocols: seq<ProtocolProbe>, groups: seq<CipherGroup>)

  // --- the file, entry by entry: None stands for a value that is missing or of the wrong form -----------------

  datatype RawProtocol =
    RawProtocol(name: Option<Name>, version: Option<Word>, weak: Option<bool>, suites: Option<seq<Option<Word>>>)
  datatype RawSuite = RawSuite(code: Option<Word>, named: bool)
  datatype RawGroup = RawGroup(id: Option<Name>, described: bool, suites: seq<RawSuite>)
  datatype RawRules = RawRules(versioned: bool, maxConnections: Option<int>, pauseSeconds: Option<real>,
                               timeoutSeconds: Option<real>, protocols: seq<RawProtocol>, groups: seq<RawGroup>)

  predicate Distinct<T(==)>(s: seq<T>) {
    forall i, j :: 0 <= i < j < |s| ==> s[i] != s[j]
  }

  predicate Within(value: Option<real>, low: real, high: real) {
    value.Some? && low <= value.value <= high
  }

  predicate AllGiven<T>(s: seq<Option<T>>) {
    forall k :: 0 <= k < |s| ==> s[k].Some?
  }

  predicate ProtocolOk(p: RawProtocol) {
    && p.name.Some? && p.version.Some? && p.weak.Some?
    && p.suites.Some? && p.suites.value != [] && AllGiven(p.suites.value) && Distinct(p.suites.value)
  }

  predicate GroupOk(g: RawGroup) {
    g.id.Some? && g.described && forall k :: 0 <= k < |g.suites| ==> g.suites[k].code.Some? && g.suites[k].named
  }

  function Names(protocols: seq<RawProtocol>): (names: seq<Option<Name>>)
    ensures |names| == |protocols| && forall k :: 0 <= k < |names| ==> names[k] == protocols[k].name
  {
    seq(|protocols|, k requires 0 <= k < |protocols| => protocols[k].name)
  }

  function Ids(groups: seq<RawGroup>): (ids: seq<Option<Name>>)
    ensures |ids| == |groups| && forall k :: 0 <= k < |ids| ==> ids[k] == groups[k].id
  {
    seq(|groups|, k requires 0 <= k < |groups| => groups[k].id)
  }

  function Codes(suites: seq<RawSuite>): (codes: seq<Option<Word>>)
    ensures |codes| == |suites| && forall k :: 0 <= k < |codes| ==> codes[k] == suites[k].code
  {
    seq(|suites|, k requires 0 <= k < |suites| => suites[k].code)
  }

  /** The suite codes of all groups, in the order of the file. */
  function AllCodes(groups: seq<RawGroup>): seq<Option<Word>> {
    if groups == [] then [] else AllCodes(groups[..|groups| - 1]) + Codes(groups[|groups| - 1].suites)
  }

  function Probed(groups: seq<RawGroup>): nat {
    if groups == [] then 0
    else Probed(groups[..|groups| - 1]) + if groups[|groups| - 1].suites != [] then 1 else 0
  }

  /** What a rules file must be to be loaded. */
  predicate Acceptable(raw: RawRules) {
    && raw.versioned && Within(raw.pauseSeconds, 0.0, 5.0) && Within(raw.timeoutSeconds, 1.0, 30.0)
    && raw.protocols != [] && (forall k :: 0 <= k < |raw.protocols| ==> ProtocolOk(raw.protocols[k]))
    && Distinct(Names(raw.protocols))
    && raw.groups != [] && (forall k :: 0 <= k < |raw.groups| ==> GroupOk(raw.groups[k]))
    && Distinct(Ids(raw.groups)) && Distinct(AllCodes(raw.groups))
    && raw.maxConnections.Some?
    && |raw.protocols| + Probed(raw.groups) + CERTIFICATE_CONNECTIONS <= raw.maxConnections.value
       <= MAX_CONNECTIONS_CEILING
  }

  // --- the rules that are loaded ---------------------------------------------------------------------------------

  function Values<T>(s: seq<Option<T>>): (values: seq<T>)
    requires AllGiven(s)
    ensures |values| == |s| && forall k :: 0 <= k < |s| ==> values[k] == s[k].value
  {
    seq(|s|, k requires 0 <= k < |s| => s[k].value)
  }

  function ProtocolOf(p: RawProtocol): ProtocolProbe
    requires ProtocolOk(p)
  {
    ProtocolProbe(p.name.value, p.version.value, p.weak.value, Values(p.suites.value))
  }

  function GroupOf(g: RawGroup): CipherGroup
    requires GroupOk(g)
  {
    CipherGroup(g.id.value, Values(Codes(g.suites)))
  }

  function ProtocolsOf(raws: seq<RawProtocol>): (protocols: seq<ProtocolProbe>)
    requires forall k :: 0 <= k < |raws| ==> ProtocolOk(raws[k])
    ensures |protocols| == |raws| && forall k :: 0 <= k < |raws| ==> protocols[k] == ProtocolOf(raws[k])
  {
    seq(|raws|, k requires 0 <= k < |raws| => ProtocolOf(raws[k]))
  }

  function GroupsOf(raws: seq<RawGroup>): (groups: seq<CipherGroup>)
    requires forall k :: 0 <= k < |raws| ==> GroupOk(raws[k])
    ensures |groups| == |raws| && forall k :: 0 <= k < |raws| ==> groups[k] == GroupOf(raws[k])
  {
    seq(|raws|, k requires 0 <= k < |raws| => GroupOf(raws[k]))
  }

  function RulesOf(raw: RawRules): Rules
    requires Acceptable(raw)
  {
    Rules(raw.maxConnections.value, ProtocolsOf(raw.protocols), GroupsOf(raw.groups))
  }

  method CheckProtocol(p: RawProtocol) returns (probe: Option<ProtocolProbe>)
    ensures probe == if ProtocolOk(p) then Some(ProtocolOf(p)) else None
  {
    if p.name.None? || p.weak.None? || p.suites.None? || p.suites.value == [] {
      return None;
    }
    var codes, seen: set<Word> := [], {};
    var suites := p.suites.value;
    for i := 0 to |suites|
      invariant forall k :: 0 <= k < i ==> suites[k].Some?
      invariant |codes| == i && forall k :: 0 <= k < i ==> codes[k] == suites[k].value
      invariant forall code :: code in seen <==> code in codes
    {
      if suites[i].None? {
        return None;
      }
      codes := codes + [suites[i].value];
      seen := seen + {suites[i].value};
    }
    SetSize(codes, seen);
    DistinctValues(suites);
    if |seen| != |codes| {
      assert codes == Values(suites);
      return None;
    }
    if p.version.None? {
      return None;
    }
    assert codes == Values(suites);
    probe := Some(ProtocolProbe(p.name.value, p.version.value, p.weak.value, codes));
  }

  /** The set of a sequence is as large as the sequence exactly when nothing is repeated. */
  lemma {:induction false} SetSize<T>(s: seq<T>, members: set<T>)
    requires forall x :: x in members <==> x in s
    ensures |members| <= |s| && (|members| == |s| <==> Distinct(s))
  {
    if s == [] {
      assert members == {};
    } else {
      var last, front := s[|s| - 1], s[..|s| - 1];
      assert forall x :: x in s <==> x in front || x == last;
      if last in front {
        SetSize(front, members);
        var k :| 0 <= k < |front| && front[k] == last;
        assert s[k] == s[|s| - 1];
      } else {
        SetSize(front, members - {last});
        assert Distinct(s) <==> Distinct(front) by {
          if Distinct(front) {
            forall i, j | 0 <= i < j < |s| ensures s[i] != s[j] {
              assert s[i] == front[i];
            }
          } else {
            var i, j :| 0 <= i < j < |front| && front[i] == front[j];
            assert s[i] == s[j];
          }
        }
      }
    }
  }

  lemma DistinctValues<T>(s: seq<Option<T>>)
    requires AllGiven(s)
    ensures Distinct(s) <==> Distinct(Values(s))
  {
    if !Distinct(s) {
      var i, j :| 0 <= i < j < |s| && s[i] == s[j];
      assert Values(s)[i] == Values(s)[j];
    }
    if !Distinct(Values(s)) {
      var i, j :| 0 <= i < j < |s| && Values(s)[i] == Values(s)[j];
      assert s[i] == s[j];
    }
  }

  lemma DistinctPush<T>(s: seq<T>, x: T)
    ensures Distinct(s + [x]) <==> Distinct(s) && x !in s
  {
    var t := s + [x];
    if Distinct(t) {
      forall i, j | 0 <= i < j < |s| ensures s[i] != s[j] {
        assert t[i] != t[j];
      }
      forall i | 0 <= i < |s| ensures s[i] != x {
        assert t[i] != t[|s|];
      }
    }
  }

  lemma DistinctPrefix<T>(s: seq<T>, more: seq<T>)
    requires Distinct(s + more)
    ensures Distinct(s)
  {
    forall i, j | 0 <= i < j < |s| ensures s[i] != s[j] {
      assert (s + more)[i] != (s + more)[j];
    }
  }

  /** The codes that have an owner are those read so far. */
  ghost predicate Owned(owner: map<Word, Name>, codes: seq<Option<Word>>) {
    forall code :: code in owner <==> Some(code) in codes
  }

  /** One more code is read, if it has no owner yet. */
  lemma OneMoreCode(owner: map<Word, Name>, codes: seq<Option<Word>>, mine: seq<Option<Word>>, i: nat, name: Name)
    requires i < |mine| && mine[i].Some? && Owned(owner, codes + mine[..i]) && Distinct(codes + mine[..i])
    requires mine[i].value !in owner
    ensures Owned(owner[mine[i].value := name], codes + mine[..i + 1]) && Distinct(codes + mine[..i + 1])
  {
    assert codes + mine[..i + 1] == (codes + mine[..i]) + [mine[i]];
    DistinctPush(codes + mine[..i], mine[i]);
    hide Distinct;
  }

  /** A code that has an owner is repeated. */
  lemma OwnedCodeRepeats(owner: map<Word, Name>, codes: seq<Option<Word>>, mine: seq<Option<Word>>, i: nat)
    requires i < |mine| && mine[i].Some? && Owned(owner, codes + mine[..i]) && mine[i].value in owner
    ensures !Distinct(codes + mine)
  {
    var k :| 0 <= k < |codes + mine[..i]| && (codes + mine[..i])[k] == mine[i];
    assert (codes + mine)[k] == (codes + mine)[|codes| + i];
  }

  /** One group: every suite well formed and of no group before; `codes` are the codes read before it. */
  method CheckGroup(g: RawGroup, before: map<Word, Name>, ghost codes: seq<Option<Word>>)
    returns (group: Option<CipherGroup>, owner: map<Word, Name>)
    requires Owned(before, codes) && Distinct(codes)
    ensures group == if GroupOk(g) && Distinct(codes + Codes(g.suites)) then Some(GroupOf(g)) else None
    ensures group.Some? ==> Owned(owner, codes + Codes(g.suites))
  {
    hide Distinct, Owned;
    owner := before;
    group := None;
    if g.id.None? || !g.described {
      return;
    }
    var read: seq<Word> := [];
    ghost var mine := Codes(g.suites);
    assert codes + mine[..0] == codes;
    for i := 0 to |g.suites|
      invariant forall k :: 0 <= k < i ==> g.suites[k].code.Some? && g.suites[k].named
      invariant |read| == i && forall k :: 0 <= k < i ==> read[k] == g.suites[k].code.value
      invariant Owned(owner, codes + mine[..i]) && Distinct(codes + mine[..i]) && group == None
    {
      var suite := g.suites[i];
      if suite.code.None? || !suite.named {
        return;
      }
      if suite.code.value in owner {
        OwnedCodeRepeats(owner, codes, mine, i);
        return;
      }
      OneMoreCode(owner, codes, mine, i, g.id.value);
      owner := owner[suite.code.value := g.id.value];
      read := read + [suite.code.value];
    }
    assert mine[..|g.suites|] == mine;
    assert read == Values(mine);
    group := Some(CipherGroup(g.id.value, read));
  }

  method LoadProtocols(raws: seq<RawProtocol>) returns (protocols: Option<seq<ProtocolProbe>>)
    ensures protocols.Some? <==> (forall k :: 0 <= k < |raws| ==> ProtocolOk(raws[k])) && Distinct(Names(raws))
    ensures protocols.Some? ==> protocols.value == ProtocolsOf(raws)
  {
    hide ProtocolOk, ProtocolOf;
    var read: seq<ProtocolProbe> := [];
    ghost var names := Names(raws);
    for n := 0 to |raws|
      invariant |read| == n
      invariant forall k :: 0 <= k < n ==> ProtocolOk(raws[k]) && read[k] == ProtocolOf(raws[k])
      invariant forall k :: 0 <= k < n ==> raws[k].name == Some(read[k].name)
      invariant Distinct(names[..n])
    {
      var probe := CheckProtocol(raws[n]);
      if probe.None? {
        return None;
      }
      ProtocolIsNamed(raws[n]);
      assert names[..n + 1] == names[..n] + [names[n]];
      DistinctPush(names[..n], names[n]);
      if exists k | 0 <= k < n :: read[k].name == probe.value.name {
        var k :| 0 <= k < n && read[k].name == probe.value.name;
        assert names[k] == names[n];
        return None;
      }
      assert names[n] !in names[..n];
      read := read + [probe.value];
    }
    assert names[..|raws|] == names;
    assert read == ProtocolsOf(raws);
    protocols := Some(read);
  }

  lemma ProtocolIsNamed(p: RawProtocol)
    requires ProtocolOk(p)
    ensures p.name == Some(ProtocolOf(p).name)
  {
  }

  method LoadGroups(raws: seq<RawGroup>) returns (groups: Option<seq<CipherGroup>>, probed: nat)
    ensures groups.Some? <==>
      (forall k :: 0 <= k < |raws| ==> GroupOk(raws[k])) && Distinct(Ids(raws)) && Distinct(AllCodes(raws))
    ensures groups.Some? ==>
      groups.value == GroupsOf(raws) && probed == Probed(raws)
  {
    hide GroupOk, GroupOf, AllCodes, Probed, Owned;
    var read: seq<CipherGroup> := [];
    var owner: map<Word, Name> := map[];
    ghost var ids := Ids(raws);
    groups, probed := None, 0;
    NothingRead();
    assert raws[..0] == [];
    for n := 0 to |raws|
      invariant |read| == n && groups == None
      invariant forall k :: 0 <= k < n ==> GroupOk(raws[k]) && read[k] == GroupOf(raws[k])
      invariant forall k :: 0 <= k < n ==> raws[k].id == Some(read[k].id)
      invariant Distinct(ids[..n]) && Distinct(AllCodes(raws[..n])) && Owned(owner, AllCodes(raws[..n]))
      invariant probed == Probed(raws[..n])
    {
      var group;
      OneMoreGroup(raws, n);
      group, owner := CheckGroup(raws[n], owner, AllCodes(raws[..n]));
      if group.None? {
        if Distinct(AllCodes(raws)) {
          CodesPrefix(raws, n + 1);
        }
        return;
      }
      GroupIsNamed(raws[n]);
      assert ids[..n + 1] == ids[..n] + [ids[n]];
      DistinctPush(ids[..n], ids[n]);
      if exists k | 0 <= k < n :: read[k].id == group.value.id {
        var k :| 0 <= k < n && read[k].id == group.value.id;
        assert ids[k] == ids[n];
        return;
      }
      assert ids[n] !in ids[..n];
      read := read + [group.value];
      probed := probed + if group.value.suites != [] then 1 else 0;
    }
    assert ids[..|raws|] == ids && raws[..|raws|] == raws;
    assert read == GroupsOf(raws);
    groups := Some(read);
  }

  lemma NothingRead()
    ensures AllCodes([]) == [] && Probed([]) == 0 && Owned(map[], AllCodes([]))
  {
  }

  lemma GroupIsNamed(g: RawGroup)
    requires GroupOk(g)
    ensures g.id == Some(GroupOf(g).id) && (GroupOf(g).suites != [] <==> g.suites != [])
  {
  }

  lemma OneMoreGroup(raws: seq<RawGroup>, n: nat)
    requires n < |raws|
    ensures AllCodes(raws[..n + 1]) == AllCodes(raws[..n]) + Codes(raws[n].suites)
    ensures Probed(raws[..n + 1]) == Probed(raws[..n]) + if raws[n].suites != [] then 1 else 0
  {
    var some := raws[..n + 1];
    assert some[..|some| - 1] == raws[..n] && some[|some| - 1] == raws[n];
  }

  lemma {:induction false} CodesPrefix(raws: seq<RawGroup>, n: nat)
    requires n <= |raws| && Distinct(AllCodes(raws))
    ensures Distinct(AllCodes(raws[..n]))
    decreases |raws| - n
  {
    if n == |raws| {
      assert raws[..n] == raws;
    } else {
      CodesPrefix(raws, n + 1);
      OneMoreGroup(raws, n);
      hide AllCodes;
      DistinctPrefix(AllCodes(raws[..n]), Codes(raws[n].suites));
    }
  }

  /** Loading accepts a file exactly when it is acceptable, and then loads what it says. */
  method Load(raw: RawRules) returns (rules: Option<Rules>)
    ensures rules == if Acceptable(raw) then Some(RulesOf(raw)) else None
  {
    hide ProtocolOk, GroupOk, AllCodes, Probed, ProtocolOf, GroupOf, Distinct;
    if !raw.versioned || raw.maxConnections.None? || raw.maxConnections.value > MAX_CONNECTIONS_CEILING {
      return None;
    }
    if !Within(raw.pauseSeconds, 0.0, 5.0) || !Within(raw.timeoutSeconds, 1.0, 30.0) {
      return None;
    }
    if raw.protocols == [] {
      return None;
    }
    var protocols := LoadProtocols(raw.protocols);
    if protocols.None? || raw.groups == [] {
      return None;
    }
    var groups, probed := LoadGroups(raw.groups);
    if groups.None? || raw.maxConnections.value < |protocols.value| + probed + CERTIFICATE_CONNECTIONS {
      return None;
    }
    rules := Some(Rules(raw.maxConnections.value, protocols.value, groups.value));
  }
}
