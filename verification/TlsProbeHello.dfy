/** The hellos of the two kinds of probe, and what each of them offers to the server. */
module TlsProbeHello {
  import opened Options
  import opened TlsBytes
  import opened TlsClientHello

  type Text(==, !new)  // any other text

  /** The name of a protocol or the id of a cipher group; the first five are the names of the known versions. */
  datatype Name = SSLv3 | TLSv1 | TLSv1_1 | TLSv1_2 | TLSv1_3 | Named(text: Text)

  const SSL3: Word := 0x0300
  const TLS10: Word := 0x0301
  const TLS12: Word := 0x0303
  const TLS13: Word := 0x0304
  const X25519: Word := 0x001D

  datatype ProtocolProbe = ProtocolProbe(name: Name, version: Word, weak: bool, probeSuites: seq<Word>)
  datatype CipherGroup = CipherGroup(id: Name, suites: seq<Word>)

  /** `name` is the host name in its IDNA form, None for an IP address or a name that has no such form. */
  function ServerNameExtension(name: Option<Bytes>): Option<Extension> {
    if name.None? || name.value == [] || |name.value| > 255 then None
    else
      var entry := [0] + U16(|name.value|) + name.value;
      Some(Extension(SERVER_NAME, U16(|entry|) + entry))
  }

  function NameExtensions(name: Option<Bytes>): seq<Extension> {
    match ServerNameExtension(name)
    case None => []
    case Some(e) => [e]
  }

  function GroupsExtension(): (e: Extension)
    ensures e.kind == SUPPORTED_GROUPS && |e.data| == 10
  {
    Extension(SUPPORTED_GROUPS, U16(2 * |GROUPS|) + Words(GROUPS))
  }

  /** Uncompressed points only. */
  function FormatsExtension(): (e: Extension)
    ensures e.kind == EC_POINT_FORMATS && |e.data| == 2
  {
    Extension(EC_POINT_FORMATS, [1, 0])
  }

  function AlgorithmsExtension(): (e: Extension)
    ensures e.kind == SIGNATURE_ALGORITHMS && |e.data| == 24
  {
    Extension(SIGNATURE_ALGORITHMS, U16(2 * |ALGORITHMS|) + Words(ALGORITHMS))
  }

  function CommonExtensions(name: Option<Bytes>, signatureAlgorithms: bool): seq<Extension> {
    NameExtensions(name)
    + [GroupsExtension(), FormatsExtension()]
    + (if signatureAlgorithms then [AlgorithmsExtension()] else [])
  }

  function Without(extensions: seq<Extension>, kind: Word): seq<Extension> {
    if extensions == [] then []
    else if extensions[0].kind != kind then [extensions[0]] + Without(extensions[1..], kind)
    else Without(extensions[1..], kind)
  }

  function VersionsExtension(): (e: Extension)
    ensures e.kind == SUPPORTED_VERSIONS && |e.data| == 3
  {
    Extension(SUPPORTED_VERSIONS, [2] + U16(TLS13))
  }

  /** A well-formed x25519 value; no key is ever derived from it. */
  function ShareExtension(key: Bytes): (e: Extension)
    requires |key| == 32
    ensures e.kind == KEY_SHARE && |e.data| == 38
  {
    var share := U16(X25519) + U16(32) + key;
    Extension(KEY_SHARE, U16(|share|) + share)
  }

  /** The extensions of a hello for one version; `key` is the random value sent as an x25519 share. */
  function ProtocolExtensions(version: Word, name: Option<Bytes>, key: Bytes): seq<Extension>
    requires |key| == 32
  {
    if version == TLS13 then
      Without(CommonExtensions(name, true), EC_POINT_FORMATS)
      + [VersionsExtension(), ShareExtension(key)]
    else if version == SSL3 then []
    else CommonExtensions(name, version >= TLS12)
  }

  function ProtocolSuites(p: ProtocolProbe): seq<Word> {
    if p.version == TLS13 then p.probeSuites else p.probeSuites + [SCSV]
  }

  /** `random`, `id` and `key` are the random bytes drawn for this hello. */
  function ProtocolHello(p: ProtocolProbe, name: Option<Bytes>, random: Bytes, id: Bytes, key: Bytes): Option<Bytes>
    requires |random| == |id| == |key| == 32
  {
    ExtensionsFit(p.version, name, key);
    var extensions := Encoded(ProtocolExtensions(p.version, name, key));
    if p.version == TLS13 then ClientHello(TLS10, TLS12, ProtocolSuites(p), extensions, id, random)
    else ClientHello(if p.version == SSL3 then SSL3 else TLS10, p.version, ProtocolSuites(p), extensions, [], random)
  }

  function GroupHello(g: CipherGroup, name: Option<Bytes>, random: Bytes): Option<Bytes>
    requires |random| == 32
  {
    CommonExtensionsFit(name, true);
    ClientHello(TLS10, TLS12, g.suites + [SCSV], Encoded(CommonExtensions(name, true)), [], random)
  }

  // --- every extension has room for its length -------------------------------------------------------------

  function Size(extensions: seq<Extension>): nat {
    if extensions == [] then 0 else 4 + |extensions[0].data| + Size(extensions[1..])
  }

  lemma {:induction false} SizeOfTwo(a: seq<Extension>, b: seq<Extension>)
    ensures Size(a + b) == Size(a) + Size(b)
  {
    if a == [] {
      assert a + b == b;
    } else {
      SizeOfTwo(a[1..], b);
      assert (a + b)[1..] == a[1..] + b;
    }
  }

  lemma SizeOfPair(a: Extension, b: Extension)
    ensures Size([]) == 0 && Size([a]) == 4 + |a.data| && Size([a, b]) == 8 + |a.data| + |b.data|
  {
    assert [a][1..] == [] && [b][1..] == [] && [a, b][1..] == [b];
    assert Size([b]) == 4 + |b.data|;
  }

  lemma {:induction false} WithoutIsSmaller(extensions: seq<Extension>, kind: Word)
    ensures Size(Without(extensions, kind)) <= Size(extensions)
    ensures forall e :: e in Without(extensions, kind) <==> e in extensions && e.kind != kind
  {
    if extensions != [] {
      var e := extensions[0];
      var rest := Without(extensions[1..], kind);
      WithoutIsSmaller(extensions[1..], kind);
      assert extensions == [e] + extensions[1..];
      SizeOfTwo([e], rest);
      SizeOfPair(e, e);
    }
  }

  lemma {:induction false} SizeIsExact(extensions: seq<Extension>)
    requires AllFit(extensions)
    ensures |Flatten(Encoded(extensions))| == Size(extensions)
  {
    if extensions != [] {
      SizeIsExact(extensions[1..]);
      assert Encoded(extensions)[1..] == Encoded(extensions[1..]);
    }
  }

  lemma CommonExtensionsFit(name: Option<Bytes>, signatureAlgorithms: bool)
    ensures AllFit(CommonExtensions(name, signatureAlgorithms))
    ensures Size(CommonExtensions(name, signatureAlgorithms)) <= 400
  {
    hide GroupsExtension, FormatsExtension, AlgorithmsExtension, NameExtensions, Size;
    var pair := [GroupsExtension(), FormatsExtension()];
    SizeOfTwo(NameExtensions(name), pair);
    SizeOfTwo(NameExtensions(name) + pair, if signatureAlgorithms then [AlgorithmsExtension()] else []);
    SizeOfPair(GroupsExtension(), FormatsExtension());
    SizeOfPair(AlgorithmsExtension(), FormatsExtension());
    NameSize(name);
  }

  lemma NameSize(name: Option<Bytes>)
    ensures AllFit(NameExtensions(name)) && Size(NameExtensions(name)) <= 300
  {
    if Nameable(name) {
      SizeOfPair(NameExtensions(name)[0], NameExtensions(name)[0]);
    }
  }

  lemma ExtensionsFit(version: Word, name: Option<Bytes>, key: Bytes)
    requires |key| == 32
    ensures AllFit(ProtocolExtensions(version, name, key)) && Size(ProtocolExtensions(version, name, key)) <= 500
  {
    hide CommonExtensions, Without;
    CommonExtensionsFit(name, version == TLS13 || version >= TLS12);
    if version == TLS13 {
      var common := CommonExtensions(name, true);
      var more := [VersionsExtension(), ShareExtension(key)];
      hide VersionsExtension, ShareExtension, Size;
      WithoutIsSmaller(common, EC_POINT_FORMATS);
      SizeOfTwo(Without(common, EC_POINT_FORMATS), more);
      SizeOfPair(VersionsExtension(), ShareExtension(key));
      forall k | 0 <= k < |ProtocolExtensions(version, name, key)|
        ensures ProtocolExtensions(version, name, key)[k].Fits()
      {
        var e := ProtocolExtensions(version, name, key)[k];
        assert e in Without(common, EC_POINT_FORMATS) || e in more;
      }
    }
  }

  // --- what the server is offered --------------------------------------------------------------------------

  /** Section 4.2.1 of RFC 8446: with this extension the versions it lists are the only ones offered. */
  ghost predicate OffersOnly(h: Hello, version: Word) {
    && (exists e :: e in h.extensions && e.kind == SUPPORTED_VERSIONS)
    && forall e :: e in h.extensions && e.kind == SUPPORTED_VERSIONS ==>
         exists list :: TakeVec8(e.data) == Some(Read(list, [])) && AllWords(list) == Some([version])
  }

  /** Without it the hello offers what its version field says, and whatever the server knows below it. */
  ghost predicate OffersUpTo(h: Hello, version: Word) {
    && h.clientVersion == version
    && forall e :: e in h.extensions ==> e.kind != SUPPORTED_VERSIONS
  }

  /** Section 3 of RFC 6066: a list of one entry of type host_name. */
  function ReadServerName(data: Bytes): Option<Bytes> {
    match TakeVec16(data)
    case None => None
    case Some(list) =>
      if list.rest != [] || |list.value| == 0 || list.value[0] != 0 then None
      else match TakeVec16(list.value[1..])
        case None => None
        case Some(host) => if host.rest == [] then Some(host.value) else None
  }

  predicate Nameable(name: Option<Bytes>) {
    name.Some? && 0 < |name.value| <= 255
  }

  ghost predicate NamesHost(h: Hello, name: Option<Bytes>) {
    && ((exists e :: e in h.extensions && e.kind == SERVER_NAME) <==> Nameable(name))
    && forall e :: e in h.extensions && e.kind == SERVER_NAME ==> ReadServerName(e.data) == name
  }

  ghost predicate Carries(h: Hello, kind: Word) {
    exists e :: e in h.extensions && e.kind == kind
  }

  lemma ServerNameReadsBack(name: Bytes)
    requires 0 < |name| <= 255
    ensures ReadServerName(ServerNameExtension(Some(name)).value.data) == Some(name)
  {
    var entry := [0] + U16(|name|) + name;
    var host := U16(|name|) + name;
    hide TakeVec16, U16;
    TakesVec16Back(entry, []);
    TakesVec16Back(name, []);
    assert U16(|entry|) + entry + [] == U16(|entry|) + entry;
    assert host + [] == host && entry[1..] == host;
  }

  lemma NameExtensionsFacts(name: Option<Bytes>, e: Extension)
    ensures e in NameExtensions(name) ==> e.kind == SERVER_NAME && ReadServerName(e.data) == name
    ensures NameExtensions(name) != [] <==> Nameable(name)
  {
    if Nameable(name) {
      ServerNameReadsBack(name.value);
    }
  }

  /** Which extensions the common ones are. */
  lemma CommonFacts(name: Option<Bytes>, signatureAlgorithms: bool, e: Extension)
    ensures var common := CommonExtensions(name, signatureAlgorithms);
      e in common ==>
        || (e.kind == SERVER_NAME && Nameable(name) && ReadServerName(e.data) == name)
        || e.kind == SUPPORTED_GROUPS || e.kind == EC_POINT_FORMATS
        || (e.kind == SIGNATURE_ALGORITHMS && signatureAlgorithms)
  {
    NameExtensionsFacts(name, e);
    hide NameExtensions, ReadServerName, GroupsExtension, FormatsExtension, AlgorithmsExtension;
  }

  lemma CommonHas(name: Option<Bytes>, signatureAlgorithms: bool)
    ensures var common := CommonExtensions(name, signatureAlgorithms);
      && (exists e :: e in common && e.kind == SUPPORTED_GROUPS)
      && (exists e :: e in common && e.kind == EC_POINT_FORMATS)
      && (signatureAlgorithms ==> exists e :: e in common && e.kind == SIGNATURE_ALGORITHMS)
      && (Nameable(name) ==> exists e :: e in common && e.kind == SERVER_NAME)
  {
    var common := CommonExtensions(name, signatureAlgorithms);
    var pair := [GroupsExtension(), FormatsExtension()];
    hide GroupsExtension, FormatsExtension, AlgorithmsExtension;
    assert pair[0] in pair && pair[1] in pair;
    assert pair[0] in common && pair[1] in common;
    if signatureAlgorithms {
      assert AlgorithmsExtension() in common;
    }
    if Nameable(name) {
      NameExtensionsFacts(name, NameExtensions(name)[0]);
      assert NameExtensions(name)[0] in common;
    }
  }

  lemma VersionListReadsBack()
    ensures TakeVec8(VersionsExtension().data) == Some(Read(U16(TLS13), [])) && AllWords(U16(TLS13)) == Some([TLS13])
  {
    var list := U16(TLS13);
    TakesVec8Back(list, []);
    assert [|list|] + list + [] == [2] + list;
    AllWordsBack([TLS13]);
    assert Words([TLS13]) == list + Words([]);
  }

  /** A two-byte length and then nothing but two-byte numbers. */
  predicate ListsWords(data: Bytes, words: seq<Word>) {
    match TakeVec16(data)
    case None => false
    case Some(list) => list.rest == [] && AllWords(list.value) == Some(words)
  }

  /** Section 4.2.8 of RFC 8446: a list of one share, its group and its key. */
  predicate SharesKey(data: Bytes, group: Word, key: Bytes) {
    match TakeVec16(data)
    case None => false
    case Some(list) =>
      list.rest == []
      && match TakeU16(list.value)
         case None => false
         case Some(kind) => kind.value == group && TakeVec16(kind.rest) == Some(Read(key, []))
  }

  lemma WordsListedBack(words: seq<Word>)
    requires 2 * |words| < 0x1_0000
    ensures ListsWords(U16(2 * |words|) + Words(words), words)
  {
    TakesVec16Back(Words(words), []);
    AllWordsBack(words);
    hide TakeVec16, AllWords, Words, U16;
    assert U16(2 * |words|) + Words(words) + [] == U16(2 * |words|) + Words(words);
  }

  lemma ShareReadsBack(key: Bytes)
    requires |key| == 32
    ensures SharesKey(ShareExtension(key).data, X25519, key)
  {
    hide TakeVec16, TakeU16, U16;
    var sized := U16(|key|) + key;
    var share := U16(X25519) + sized;
    assert U16(X25519) + U16(32) + key == share;
    TakesVec16Back(share, []);
    assert U16(|share|) + share + [] == U16(|share|) + share;
    TakesU16Back(X25519, sized);
    TakesVec16Back(key, []);
    assert sized + [] == sized;
  }

  lemma FormatsReadBack()
    ensures TakeVec8(FormatsExtension().data) == Some(Read([0], []))
  {
    NullCompressionReadsBack([]);
    assert [1, 0] + [] == FormatsExtension().data;
  }

  /** The contents of the extensions, read as their standards lay them out. */
  lemma ExtensionContents(key: Bytes)
    requires |key| == 32
    ensures ListsWords(GroupsExtension().data, GROUPS) && ListsWords(AlgorithmsExtension().data, ALGORITHMS)
    ensures TakeVec8(FormatsExtension().data) == Some(Read([0], [])) && SharesKey(ShareExtension(key).data, X25519, key)
  {
    hide ListsWords, SharesKey, TakeVec8, ShareExtension, FormatsExtension;
    WordsListedBack(GROUPS);
    WordsListedBack(ALGORITHMS);
    FormatsReadBack();
    ShareReadsBack(key);
  }

  /**
   * A protocol probe offers its own version: TLS 1.3 alone, or an older version as the newest. Its suites are the
   * configured ones (with the renegotiation signal before TLS 1.3), a name is sent when there is one to send, SSL 3
   * gets no extension at all, and each other extension is present exactly where the standard of that version wants it.
   */
  lemma ProtocolHelloOffers(p: ProtocolProbe, name: Option<Bytes>, random: Bytes, id: Bytes, key: Bytes)
    requires |random| == |id| == |key| == 32 && ProtocolHello(p, name, random, id, key).Some?
    ensures var read := ReadClientHello(ProtocolHello(p, name, random, id, key).value);
      && read.Some? && read.value.random == random && read.value.suites == ProtocolSuites(p)
      && read.value.compressions == [0] && read.value.extensions == ProtocolExtensions(p.version, name, key)
      && read.value.recordVersion == (if p.version == SSL3 then SSL3 else TLS10)
      && read.value.clientVersion == (if p.version == TLS13 then TLS12 else p.version)
      && read.value.sessionId == (if p.version == TLS13 then id else [])
      && (if p.version == TLS13 then OffersOnly(read.value, TLS13) else OffersUpTo(read.value, p.version))
      && (p.version == SSL3 ==> read.value.extensions == [])
      && (p.version != SSL3 ==> NamesHost(read.value, name))
      && (Carries(read.value, SUPPORTED_GROUPS) <==> p.version != SSL3)
      && (Carries(read.value, EC_POINT_FORMATS) <==> p.version != SSL3 && p.version != TLS13)
      && (Carries(read.value, SIGNATURE_ALGORITHMS) <==> p.version >= TLS12)
      && (Carries(read.value, KEY_SHARE) <==> p.version == TLS13)
  {
    var extensions := ProtocolExtensions(p.version, name, key);
    ExtensionsFit(p.version, name, key);
    hide ReadClientHello, ClientHello, CommonExtensions, ReadServerName;
    if p.version == TLS13 {
      ClientHelloReadsBack(TLS10, TLS12, ProtocolSuites(p), extensions, id, random);
      var h := ReadClientHello(ProtocolHello(p, name, random, id, key).value).value;
      hide ProtocolHello, ProtocolSuites;
      Tls13Offers(h, name, key);
    } else {
      var record := if p.version == SSL3 then SSL3 else TLS10;
      ClientHelloReadsBack(record, p.version, ProtocolSuites(p), extensions, [], random);
      var h := ReadClientHello(ProtocolHello(p, name, random, id, key).value).value;
      hide ProtocolHello, ProtocolSuites;
      if p.version != SSL3 {
        CommonOffers(h, name, p.version >= TLS12);
      }
    }
  }

  lemma CommonOffers(h: Hello, name: Option<Bytes>, signatureAlgorithms: bool)
    requires h.extensions == CommonExtensions(name, signatureAlgorithms)
    ensures OffersUpTo(h, h.clientVersion) && NamesHost(h, name)
    ensures Carries(h, SUPPORTED_GROUPS) && Carries(h, EC_POINT_FORMATS) && !Carries(h, KEY_SHARE)
    ensures Carries(h, SIGNATURE_ALGORITHMS) <==> signatureAlgorithms
  {
    hide CommonExtensions, ReadServerName;
    CommonHas(name, signatureAlgorithms);
    forall e | e in h.extensions
      ensures e.kind != SUPPORTED_VERSIONS && e.kind != KEY_SHARE
      ensures e.kind == SIGNATURE_ALGORITHMS ==> signatureAlgorithms
      ensures e.kind == SERVER_NAME ==> Nameable(name) && ReadServerName(e.data) == name
    {
      CommonFacts(name, signatureAlgorithms, e);
    }
  }

  /** The extensions of a TLS 1.3 hello: the common ones but the point formats, and two of its own. */
  lemma Tls13Extensions(name: Option<Bytes>, key: Bytes, e: Extension)
    requires |key| == 32
    ensures e in ProtocolExtensions(TLS13, name, key) <==>
      || (e in CommonExtensions(name, true) && e.kind != EC_POINT_FORMATS)
      || e == VersionsExtension() || e == ShareExtension(key)
  {
    hide CommonExtensions, Without, VersionsExtension, ShareExtension;
    var kept := Without(CommonExtensions(name, true), EC_POINT_FORMATS);
    var more := [VersionsExtension(), ShareExtension(key)];
    assert ProtocolExtensions(TLS13, name, key) == kept + more;
    WithoutIsSmaller(CommonExtensions(name, true), EC_POINT_FORMATS);
    assert e in more <==> e == more[0] || e == more[1];
  }

  /** What `Tls13Offers` needs to know of each extension. */
  lemma Tls13Facts(name: Option<Bytes>, key: Bytes, e: Extension)
    requires |key| == 32 && e in ProtocolExtensions(TLS13, name, key)
    ensures e.kind == SUPPORTED_VERSIONS ==> e == VersionsExtension()
    ensures e.kind == SERVER_NAME ==> Nameable(name) && ReadServerName(e.data) == name
    ensures e.kind != EC_POINT_FORMATS
  {
    hide CommonExtensions, ProtocolExtensions, ReadServerName, ShareExtension;
    Tls13Extensions(name, key, e);
    CommonFacts(name, true, e);
  }

  lemma Tls13Has(name: Option<Bytes>, key: Bytes)
    requires |key| == 32
    ensures var all := ProtocolExtensions(TLS13, name, key);
      && (exists e :: e in all && e.kind == SUPPORTED_VERSIONS) && (exists e :: e in all && e.kind == KEY_SHARE)
      && (exists e :: e in all && e.kind == SUPPORTED_GROUPS) && (exists e :: e in all && e.kind == SIGNATURE_ALGORITHMS)
      && (Nameable(name) ==> exists e :: e in all && e.kind == SERVER_NAME)
  {
    hide CommonExtensions, ProtocolExtensions, VersionsExtension, ShareExtension;
    Tls13Extensions(name, key, VersionsExtension());
    Tls13Extensions(name, key, ShareExtension(key));
    CommonHas(name, true);
    forall e | e in CommonExtensions(name, true) && e.kind != EC_POINT_FORMATS
      ensures e in ProtocolExtensions(TLS13, name, key)
    {
      Tls13Extensions(name, key, e);
    }
  }

  lemma Tls13Offers(h: Hello, name: Option<Bytes>, key: Bytes)
    requires |key| == 32 && h.extensions == ProtocolExtensions(TLS13, name, key)
    ensures OffersOnly(h, TLS13) && NamesHost(h, name)
    ensures Carries(h, SUPPORTED_GROUPS) && !Carries(h, EC_POINT_FORMATS) && Carries(h, KEY_SHARE)
    ensures Carries(h, SIGNATURE_ALGORITHMS)
  {
    hide ProtocolExtensions, ReadServerName, TakeVec8, AllWords, U16, VersionsExtension;
    Tls13Has(name, key);
    VersionListReadsBack();
    forall e | e in h.extensions
      ensures e.kind == SUPPORTED_VERSIONS ==> e == VersionsExtension()
      ensures e.kind == SERVER_NAME ==> Nameable(name) && ReadServerName(e.data) == name
      ensures e.kind != EC_POINT_FORMATS
    {
      Tls13Facts(name, key, e);
    }
  }

  /** A group probe offers the suites of its group and the renegotiation signal, nothing newer than TLS 1.2. */
  lemma GroupHelloOffers(g: CipherGroup, name: Option<Bytes>, random: Bytes)
    requires |random| == 32 && GroupHello(g, name, random).Some?
    ensures var read := ReadClientHello(GroupHello(g, name, random).value);
      && read.Some? && read.value.random == random && read.value.suites == g.suites + [SCSV]
      && read.value.compressions == [0] && read.value.extensions == CommonExtensions(name, true)
      && read.value.recordVersion == TLS10 && read.value.sessionId == []
      && OffersUpTo(read.value, TLS12) && NamesHost(read.value, name) && Carries(read.value, SIGNATURE_ALGORITHMS)
  {
    CommonExtensionsFit(name, true);
    hide ReadClientHello, ClientHello, CommonExtensions, ReadServerName;
    ClientHelloReadsBack(TLS10, TLS12, g.suites + [SCSV], CommonExtensions(name, true), [], random);
    CommonOffers(ReadClientHello(GroupHello(g, name, random).value).value, name, true);
  }

  /** A hello is built when its suites have room in a record. */
  lemma ShortHelloIsBuilt(recordVersion: Word, clientVersion: Word, suites: seq<Word>, extensions: seq<Extension>,
                          sessionId: Bytes, random: Bytes)
    requires AllFit(extensions) && Size(extensions) <= 500 && |sessionId| <= 32 && |random| == 32 && |suites| <= 32_001
    ensures ClientHello(recordVersion, clientVersion, suites, Encoded(extensions), sessionId, random).Some?
  {
    SizeIsExact(extensions);
    hide Size, Flatten, Encoded, Words;
  }

  /** Building a hello cannot fail unless the rules list more suites than a record has room for. */
  lemma HellosAreBuilt(p: ProtocolProbe, g: CipherGroup, name: Option<Bytes>, random: Bytes, id: Bytes, key: Bytes)
    requires |random| == |id| == |key| == 32 && |p.probeSuites| <= 32_000 && |g.suites| <= 32_000
    ensures ProtocolHello(p, name, random, id, key).Some? && GroupHello(g, name, random).Some?
  {
    CommonExtensionsFit(name, true);
    ExtensionsFit(p.version, name, key);
    hide CommonExtensions, ProtocolExtensions, ClientHello, Size;
    ShortHelloIsBuilt(TLS10, TLS12, g.suites + [SCSV], CommonExtensions(name, true), [], random);
    ShortHelloIsBuilt(if p.version == SSL3 then SSL3 else TLS10, if p.version == TLS13 then TLS12 else p.version,
                      ProtocolSuites(p), ProtocolExtensions(p.version, name, key),
                      if p.version == TLS13 then id else [], random);
  }
}
