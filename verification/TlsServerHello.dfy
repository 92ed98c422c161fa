/** The parser for the server's hello: what it accepts, what it finds, and that it waits for exactly what is missing. */
module TlsServerHello {
  import opened Options
  import opened TlsBytes
  import opened TlsClientHello

  const SERVER_HELLO: Byte := 2

  datatype Problem =
    | WrongMessage(kind: Byte) | TooShort | BadSessionId | BadExtensions | UnknownVersion(version: Word)

  datatype Parse = More | Found(version: Word, suite: Word) | Unreadable(problem: Problem)

  predicate KnownVersion(version: Word) { 0x0300 <= version <= 0x0304 }

  // --- the parser as functions -------------------------------------------------------------------------------

  /** The version after a run of extensions; None when they are malformed. */
  function VersionAfter(block: Bytes, version: Word): Option<Word> {
    if block == [] then Some(version)
    else if |block| < 4 || |block| - 4 < U16At(block, 2) then None
    else
      var length := U16At(block, 2);
      VersionAfter(block[4 + length..],
                   if U16At(block, 0) == SUPPORTED_VERSIONS && length == 2 then U16At(block, 4) else version)
  }

  function VersionIn(tail: Bytes, version: Word): Option<Word> {
    if tail == [] then Some(version)
    else if |tail| < 2 || U16At(tail, 0) != |tail| - 2 then None
    else VersionAfter(tail[2..], version)
  }

  function ParsedBody(body: Bytes): Parse {
    if |body| < 38 then Unreadable(TooShort)
    else if body[34] > 32 then Unreadable(BadSessionId)
    else if |body| < 38 + body[34] then Unreadable(TooShort)
    else
      match VersionIn(body[38 + body[34]..], U16At(body, 0))
      case None => Unreadable(BadExtensions)
      case Some(version) =>
        if KnownVersion(version) then Found(version, U16At(body, 35 + body[34])) else Unreadable(UnknownVersion(version))
  }

  function Parsed(b: Bytes): Parse {
    if |b| < 4 then More
    else if b[0] != SERVER_HELLO then Unreadable(WrongMessage(b[0]))
    else if |b| < 4 + U24At(b, 1) then More
    else ParsedBody(b[4..4 + U24At(b, 1)])
  }

  // --- the parser as it is written -----------------------------------------------------------------------------

  /** The extensions of a hello body from `start` on, read one after the other. */
  method ReadVersion(body: Bytes, start: nat, legacy: Word) returns (version: Option<Word>)
    requires start <= |body|
    ensures version == VersionAfter(body[start..], legacy)
  {
    var position, found := start, legacy;
    while position < |body|
      invariant position <= |body|
      invariant VersionAfter(body[position..], found) == VersionAfter(body[start..], legacy)
    {
      ghost var rest := body[position..];
      if |body| < position + 4 {
        return None;
      }
      var kind, length := U16At(body, position), U16At(body, position + 2);
      assert U16At(rest, 0) == kind && U16At(rest, 2) == length;
      if |body| - position - 4 < length {
        return None;
      }
      if kind == SUPPORTED_VERSIONS && length == 2 {
        assert U16At(rest, 4) == U16At(body, position + 4);
        found := U16At(body, position + 4);
      }
      assert rest[4 + length..] == body[position + 4 + length..];
      position := position + 4 + length;
    }
    assert body[position..] == [];
    version := Some(found);
  }

  method ParseServerHello(handshake: Bytes) returns (parse: Parse)
    ensures parse == Parsed(handshake)
  {
    if |handshake| < 4 {
      return More;
    }
    if handshake[0] != SERVER_HELLO {
      return Unreadable(WrongMessage(handshake[0]));
    }
    var size: nat := U24At(handshake, 1);
    if |handshake| < 4 + size {
      return More;
    }
    parse := ParseBody(handshake[4..4 + size]);
  }

  lemma SameNumber(body: Bytes, position: nat, tail: Bytes)
    requires position + 2 <= |body| && tail == body[position..]
    ensures U16At(tail, 0) == U16At(body, position)
  {
  }

  /** The body of a complete message. */
  method ParseBody(body: Bytes) returns (parse: Parse)
    ensures parse == ParsedBody(body)
  {
    hide VersionAfter, U16At;
    if |body| < 38 {
      return Unreadable(TooShort);
    }
    var version, idLength := U16At(body, 0), body[34];
    if idLength > 32 {
      return Unreadable(BadSessionId);
    }
    var position := 35 + idLength as int;
    if |body| < position + 3 {
      return Unreadable(TooShort);
    }
    var suite := U16At(body, position);
    position := position + 3;
    ghost var tail := body[position..];
    if position < |body| {
      if |body| >= position + 2 {
        SameNumber(body, position, tail);
      }
      if |body| < position + 2 || U16At(body, position) != |body| - position - 2 {
        return Unreadable(BadExtensions);
      }
      assert tail[2..] == body[position + 2..];
      var named := ReadVersion(body, position + 2, version);
      if named.None? {
        return Unreadable(BadExtensions);
      }
      version := named.value;
    }
    if !KnownVersion(version) {
      return Unreadable(UnknownVersion(version));
    }
    parse := Found(version, suite);
  }

  // --- what it reads: section 4.1.3 of RFC 8446 ----------------------------------------------------------------

  datatype ServerHello = ServerHello(legacyVersion: Word, random: Bytes, sessionId: Bytes, suite: Word,
                                     compression: Byte, extensions: Option<seq<Extension>>)
  {
    predicate WellFormed() {
      && |random| == 32 && |sessionId| <= 32
      && (extensions.Some? ==> AllFit(extensions.value) && |Flatten(Encoded(extensions.value))| < 0x1_0000)
    }
  }

  predicate NamesVersion(e: Extension) {
    e.kind == SUPPORTED_VERSIONS && |e.data| == 2
  }

  /** The version the server selected: that of the last two-byte supported_versions extension, else the legacy one. */
  function Selected(extensions: seq<Extension>, legacy: Word): Word {
    if extensions == [] then legacy
    else
      var last := extensions[|extensions| - 1];
      if NamesVersion(last) then U16At(last.data, 0) else Selected(extensions[..|extensions| - 1], legacy)
  }

  function SelectedVersion(h: ServerHello): Word {
    match h.extensions
    case None => h.legacyVersion
    case Some(extensions) => Selected(extensions, h.legacyVersion)
  }

  function TailBytes(extensions: Option<seq<Extension>>): (b: Bytes)
    requires extensions.Some? ==> AllFit(extensions.value) && |Flatten(Encoded(extensions.value))| < 0x1_0000
    ensures |b| <= 0x1_0001
  {
    match extensions
    case None => []
    case Some(es) => U16(|Flatten(Encoded(es))|) + Flatten(Encoded(es))
  }

  function BodyBytes(h: ServerHello): Bytes
    requires h.WellFormed()
  {
    U16(h.legacyVersion) + h.random + [|h.sessionId|] + h.sessionId + U16(h.suite) + [h.compression]
      + TailBytes(h.extensions)
  }

  lemma BodyLayout(h: ServerHello)
    requires h.WellFormed()
    ensures var b := BodyBytes(h); var n := |h.sessionId|;
      && 38 + n <= |b| < 0x100_0000
      && U16At(b, 0) == h.legacyVersion && b[34] as int == n && U16At(b, 35 + n) == h.suite
      && b[38 + n..] == TailBytes(h.extensions)
  {
    hide U16At, TailBytes, AllFit, Flatten, Encoded;
    var n, tail := |h.sessionId|, TailBytes(h.extensions);
    var front := U16(h.legacyVersion) + h.random + [n] + h.sessionId;
    var b := BodyBytes(h);
    U16Reads(h.legacyVersion, [], h.random + [n] + h.sessionId + U16(h.suite) + [h.compression] + tail);
    assert b == [] + U16(h.legacyVersion) + (h.random + [n] + h.sessionId + U16(h.suite) + [h.compression] + tail);
    U16Reads(h.suite, front, [h.compression] + tail);
    assert b == front + U16(h.suite) + ([h.compression] + tail);
    assert front[34] == n;
  }

  function HelloBytes(h: ServerHello): Bytes
    requires h.WellFormed()
  {
    BodyLayout(h);
    [SERVER_HELLO] + U24(|BodyBytes(h)|) + BodyBytes(h)
  }

  // --- the extensions ---------------------------------------------------------------------------------------------

  lemma {:induction false} SelectedFromFront(e: Extension, more: seq<Extension>, legacy: Word)
    ensures Selected([e] + more, legacy) == Selected(more, if NamesVersion(e) then U16At(e.data, 0) else legacy)
  {
    var all := [e] + more;
    if more == [] {
      assert all[..0] == [];
    } else {
      var n := |more| - 1;
      assert all[|all| - 1] == more[n] && all[..|all| - 1] == [e] + more[..n];
      SelectedFromFront(e, more[..n], legacy);
    }
  }

  lemma ExtensionLayout(e: Extension, more: Bytes)
    requires e.Fits()
    ensures var block := ExtensionBytes(e) + more; var n := |e.data|;
      && |block| == 4 + n + |more| && U16At(block, 0) == e.kind && U16At(block, 2) == n && block[4 + n..] == more
      && block[4..4 + n] == e.data
  {
    hide U16, U16At;
    var block := ExtensionBytes(e) + more;
    U16Reads(e.kind, [], U16(|e.data|) + e.data + more);
    assert block == [] + U16(e.kind) + (U16(|e.data|) + e.data + more);
    U16Reads(|e.data|, U16(e.kind), e.data + more);
    assert block == U16(e.kind) + U16(|e.data|) + (e.data + more);
  }

  lemma SameNumberInside(block: Bytes, data: Bytes)
    requires |data| == 2 && |block| >= 6 && block[4..6] == data
    ensures U16At(block, 4) == U16At(data, 0)
  {
    assert block[4..6][0] == block[4] && block[4..6][1] == block[5];
  }

  lemma OneExtension(e: Extension, more: Bytes, version: Word)
    requires e.Fits()
    ensures VersionAfter(ExtensionBytes(e) + more, version)
         == VersionAfter(more, if NamesVersion(e) then U16At(e.data, 0) else version)
  {
    hide ExtensionBytes, U16, U16At;
    ExtensionLayout(e, more);
    if NamesVersion(e) {
      SameNumberInside(ExtensionBytes(e) + more, e.data);
    }
  }

  lemma {:induction false} AllExtensions(extensions: seq<Extension>, version: Word)
    requires AllFit(extensions)
    ensures VersionAfter(Flatten(Encoded(extensions)), version) == Some(Selected(extensions, version))
  {
    if extensions != [] {
      var e, more := extensions[0], extensions[1..];
      var next := if NamesVersion(e) then U16At(e.data, 0) else version;
      assert Encoded(extensions)[1..] == Encoded(more) && [e] + more == extensions;
      AllExtensions(more, next);
      OneExtension(e, Flatten(Encoded(more)), version);
      SelectedFromFront(e, more, version);
      hide VersionAfter, Selected, ExtensionBytes;
    }
  }

  // --- the round trip -----------------------------------------------------------------------------------------------

  function Verdict(h: ServerHello): Parse {
    var version := SelectedVersion(h);
    if KnownVersion(version) then Found(version, h.suite) else Unreadable(UnknownVersion(version))
  }

  lemma TailVersion(extensions: Option<seq<Extension>>, legacy: Word)
    requires extensions.Some? ==> AllFit(extensions.value) && |Flatten(Encoded(extensions.value))| < 0x1_0000
    ensures VersionIn(TailBytes(extensions), legacy)
         == Some(if extensions.Some? then Selected(extensions.value, legacy) else legacy)
  {
    hide VersionAfter, Selected, Flatten, U16At, U16, Encoded, AllFit;
    if extensions.Some? {
      var block := Flatten(Encoded(extensions.value));
      AllExtensions(extensions.value, legacy);
      U16Reads(|block|, [], block);
      assert TailBytes(extensions) == [] + U16(|block|) + block;
      assert TailBytes(extensions)[2..] == block;
    }
  }

  /**
   * Every ServerHello of the standard's syntax is read, whatever bytes follow it: its suite, and the version the last
   * two-byte supported_versions extension names, else the legacy version; only an unknown version is an error.
   */
  lemma ServerHelloReadsBack(h: ServerHello, after: Bytes)
    requires h.WellFormed()
    ensures Parsed(HelloBytes(h) + after) == Verdict(h)
  {
    BodyLayout(h);
    var body := BodyBytes(h);
    var b := HelloBytes(h) + after;
    U24Reads(|body|, [SERVER_HELLO], body + after);
    assert b == [SERVER_HELLO] + U24(|body|) + (body + after);
    assert b[4..4 + |body|] == body;
    TailVersion(h.extensions, h.legacyVersion);
    hide BodyBytes, TailBytes, VersionIn, U24At, U16At;
  }

  /** The extensions a well-formed block holds. */
  function ExtensionsOf(block: Bytes): seq<Extension> {
    if |block| < 4 || |block| - 4 < U16At(block, 2) then []
    else
      var length := U16At(block, 2);
      [Extension(U16At(block, 0), block[4..4 + length])] + ExtensionsOf(block[4 + length..])
  }

  lemma U16Writes(b: Bytes, at: nat)
    requires at + 2 <= |b|
    ensures U16(U16At(b, at)) == b[at..at + 2]
  {
  }

  lemma U24Writes(b: Bytes)
    requires |b| >= 4
    ensures U24(U24At(b, 1)) == b[1..4]
  {
    var size: nat := U24At(b, 1);
    var high := b[1] as int * 256 + b[2] as int;
    assert size == high * 256 + b[3] as int;
    assert size / 256 == high && size % 256 == b[3] as int;
    assert size / 0x1_0000 == b[1] as int && high % 256 == b[2] as int;
  }

  lemma {:induction false} BlockIsExtensions(block: Bytes, version: Word)
    requires VersionAfter(block, version).Some?
    ensures AllFit(ExtensionsOf(block)) && Flatten(Encoded(ExtensionsOf(block))) == block
  {
    hide U16At, U16, Encoded, Flatten, ExtensionBytes, AllFit;
    if block != [] {
      var length := U16At(block, 2);
      var e := Extension(U16At(block, 0), block[4..4 + length]);
      var rest := block[4 + length..];
      BlockIsExtensions(rest, if U16At(block, 0) == SUPPORTED_VERSIONS && length == 2 then U16At(block, 4) else version);
      FirstExtension(block);
      OneMoreEncoded(e, ExtensionsOf(rest));
    } else {
      NoExtensions();
    }
  }

  lemma NoExtensions()
    ensures AllFit([]) && Flatten(Encoded([])) == []
  {
  }

  lemma FirstExtension(block: Bytes)
    requires |block| >= 4 && |block| - 4 >= U16At(block, 2)
    ensures var length := U16At(block, 2); var e := Extension(U16At(block, 0), block[4..4 + length]);
      e.Fits() && block == ExtensionBytes(e) + block[4 + length..]
  {
    U16Writes(block, 0);
    U16Writes(block, 2);
    hide U16At, U16;
    assert block == block[0..2] + block[2..4] + block[4..4 + U16At(block, 2)] + block[4 + U16At(block, 2)..];
  }

  lemma OneMoreEncoded(e: Extension, more: seq<Extension>)
    requires e.Fits() && AllFit(more)
    ensures AllFit([e] + more) && Flatten(Encoded([e] + more)) == ExtensionBytes(e) + Flatten(Encoded(more))
  {
    assert Encoded([e] + more)[1..] == Encoded(more);
  }

  /** The hello that a body the parser accepts spells out. */
  function HelloOf(body: Bytes): ServerHello
    requires |body| >= 38 && |body| - 38 >= body[34]
  {
    var n := body[34] as int;
    var tail := body[38 + n..];
    ServerHello(U16At(body, 0), body[2..34], body[35..35 + n], U16At(body, 35 + n), body[37 + n],
                if |tail| < 2 then None else Some(ExtensionsOf(tail[2..])))
  }

  lemma TailIsWhole(tail: Bytes, version: Word)
    requires VersionIn(tail, version).Some?
    ensures var extensions := if |tail| < 2 then None else Some(ExtensionsOf(tail[2..]));
      && (extensions.Some? ==> AllFit(extensions.value) && |Flatten(Encoded(extensions.value))| < 0x1_0000)
      && TailBytes(extensions) == tail
  {
    if tail != [] {
      BlockIsExtensions(tail[2..], version);
      U16Writes(tail, 0);
      hide U16At, U16, ExtensionsOf, Flatten, VersionAfter;
      assert tail == tail[0..2] + tail[2..];
    }
  }

  lemma BodyIsWhole(body: Bytes)
    requires ParsedBody(body).Found?
    ensures |body| >= 38 && |body| - 38 >= body[34]
    ensures var h := HelloOf(body); h.WellFormed() && BodyBytes(h) == body && h.suite == ParsedBody(body).suite
  {
    hide U16At, U16, ExtensionsOf, TailBytes, VersionIn, Encoded, Flatten, AllFit;
    var n := body[34] as int;
    TailIsWhole(body[38 + n..], U16At(body, 0));
    U16Writes(body, 0);
    U16Writes(body, 35 + n);
    var h := HelloOf(body);
    assert h.WellFormed();
    assert BodyBytes(h) == body[0..2] + body[2..34] + [body[34]] + body[35..35 + n] + body[35 + n..37 + n] + [body[37 + n]]
                         + body[38 + n..];
  }

  /**
   * Nothing else is taken for an answer: bytes the parser accepts begin with a ServerHello of the standard's syntax,
   * and what it reports is what that hello says.
   */
  lemma AcceptedIsServerHello(b: Bytes)
    requires Parsed(b).Found?
    ensures exists h: ServerHello, after :: h.WellFormed() && b == HelloBytes(h) + after && Parsed(b) == Verdict(h)
  {
    hide BodyBytes, HelloOf, ParsedBody, U24, U24At, VersionIn, ServerHello.WellFormed, SelectedVersion;
    var size := U24At(b, 1);
    var body, after := b[4..4 + size], b[4 + size..];
    BodyIsWhole(body);
    var h := HelloOf(body);
    U24Writes(b);
    assert b == b[0..1] + b[1..4] + body + after;
    assert b == HelloBytes(h) + after;
    ServerHelloReadsBack(h, after);
  }

  // --- the parser on a growing buffer ------------------------------------------------------------------------------

  /** Once the parser has answered, more bytes do not change its answer. */
  lemma MoreBytesChangeNothing(b: Bytes, more: Bytes)
    requires Parsed(b) != More
    ensures Parsed(b + more) == Parsed(b)
  {
    var all := b + more;
    assert |b| >= 4 && U24At(all, 1) == U24At(b, 1);
    if b[0] == SERVER_HELLO {
      assert all[4..4 + U24At(b, 1)] == b[4..4 + U24At(b, 1)];
    }
    hide ParsedBody;
  }
}
