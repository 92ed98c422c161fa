/** The hello a probe sends, and an independent reader for hellos that shows what the bytes say. */
module TlsClientHello {
  import opened Options
  import opened TlsBytes

  const HANDSHAKE_RECORD: Byte := 22
  const CLIENT_HELLO: Byte := 1
  const SCSV: Word := 0x00FF
  const SERVER_NAME: Word := 0
  const SUPPORTED_GROUPS: Word := 10
  const EC_POINT_FORMATS: Word := 11
  const SIGNATURE_ALGORITHMS: Word := 13
  const SUPPORTED_VERSIONS: Word := 43
  const KEY_SHARE: Word := 51
  const GROUPS: seq<Word> := [0x001D, 0x0017, 0x0018, 0x0019]
  const ALGORITHMS: seq<Word> :=
    [0x0804, 0x0805, 0x0806, 0x0403, 0x0503, 0x0603, 0x0401, 0x0501, 0x0601, 0x0201, 0x0203]

  datatype Extension = Extension(kind: Word, data: Bytes)
  {
    predicate Fits() { |data| < 0x1_0000 }
  }

  function ExtensionBytes(e: Extension): Bytes
    requires e.Fits()
  {
    U16(e.kind) + U16(|e.data|) + e.data
  }

  predicate AllFit(extensions: seq<Extension>) {
    forall k :: 0 <= k < |extensions| ==> extensions[k].Fits()
  }

  function Encoded(extensions: seq<Extension>): seq<Bytes>
    requires AllFit(extensions)
  {
    seq(|extensions|, k requires 0 <= k < |extensions| => ExtensionBytes(extensions[k]))
  }

  // --- writing -----------------------------------------------------------------------------------------------

  /** The end of the hello: without extensions there is not even an empty block. */
  function Tail(extensions: seq<Bytes>): Bytes
    requires |Flatten(extensions)| < 0x1_0000
  {
    if extensions == [] then [] else U16(|Flatten(extensions)|) + Flatten(extensions)
  }

  function HelloBody(clientVersion: Word, random: Bytes, sessionId: Bytes, suites: seq<Word>, tail: Bytes): Bytes
    requires |sessionId| < 256 && 2 * |suites| < 0x1_0000
  {
    U16(clientVersion) + random + [|sessionId|] + sessionId + U16(2 * |suites|) + Words(suites) + [1, 0] + tail
  }

  /** The record of a ClientHello; None where building it raises because a length has no room in its field. */
  function ClientHello(recordVersion: Word, clientVersion: Word, suites: seq<Word>, extensions: seq<Bytes>,
                       sessionId: Bytes, random: Bytes): Option<Bytes> {
    if |random| != 32 || |sessionId| > 255 || 2 * |suites| > 0xFFFF || |Flatten(extensions)| > 0xFFFF then None
    else
      var body := HelloBody(clientVersion, random, sessionId, suites, Tail(extensions));
      assert |body| < 0x100_0000;
      var handshake := [CLIENT_HELLO] + U24(|body|) + body;
      if |handshake| > 0xFFFF then None
      else Some([HANDSHAKE_RECORD] + U16(recordVersion) + U16(|handshake|) + handshake)
  }

  // --- reading, after section 7.4.1.2 of RFC 5246 -------------------------------------------------------------

  datatype Hello = Hello(recordVersion: Word, clientVersion: Word, random: Bytes, sessionId: Bytes,
                         suites: seq<Word>, compressions: Bytes, extensions: seq<Extension>)

  function ReadExtensions(block: Bytes): Option<seq<Extension>> {
    if block == [] then Some([])
    else
      match TakeU16(block)
      case None => None
      case Some(kind) =>
        match TakeVec16(kind.rest)
        case None => None
        case Some(data) =>
          match ReadExtensions(data.rest)
          case None => None
          case Some(more) => Some([Extension(kind.value, data.value)] + more)
  }

  /** Everything after the compression methods: nothing, or one block of extensions that fills the rest. */
  function ReadTail(tail: Bytes): Option<seq<Extension>> {
    if tail == [] then Some([])
    else match TakeVec16(tail)
      case None => None
      case Some(block) => if block.rest == [] then ReadExtensions(block.value) else None
  }

  function ReadSuites(recordVersion: Word, clientVersion: Word, random: Bytes, sessionId: Bytes, b: Bytes)
    : Option<Hello>
  {
    match TakeVec16(b)
    case None => None
    case Some(list) =>
      match TakeVec8(list.rest)
      case None => None
      case Some(compressions) =>
        match (AllWords(list.value), ReadTail(compressions.rest))
        case (Some(suites), Some(extensions)) =>
          Some(Hello(recordVersion, clientVersion, random, sessionId, suites, compressions.value, extensions))
        case _ => None
  }

  function ReadBody(recordVersion: Word, body: Bytes): Option<Hello> {
    match TakeU16(body)
    case None => None
    case Some(version) =>
      match Take(version.rest, 32)
      case None => None
      case Some(random) =>
        match TakeVec8(random.rest)
        case None => None
        case Some(sessionId) =>
          if |sessionId.value| > 32 then None
          else ReadSuites(recordVersion, version.value, random.value, sessionId.value, sessionId.rest)
  }

  /** The handshake message in one record: its type and length must be right and nothing may be left over. */
  function ReadHandshake(recordVersion: Word, handshake: Bytes): Option<Hello> {
    match TakeU8(handshake)
    case None => None
    case Some(kind) =>
      match TakeU24(kind.rest)
      case None => None
      case Some(length) =>
        if kind.value != CLIENT_HELLO || |length.rest| != length.value then None
        else ReadBody(recordVersion, length.rest)
  }

  function ReadClientHello(record: Bytes): Option<Hello> {
    match TakeU8(record)
    case None => None
    case Some(kind) =>
      match TakeU16(kind.rest)
      case None => None
      case Some(version) =>
        match TakeVec16(version.rest)
        case None => None
        case Some(fragment) =>
          if kind.value != HANDSHAKE_RECORD || fragment.rest != [] then None
          else ReadHandshake(version.value, fragment.value)
  }

  // --- what is written is what is read -----------------------------------------------------------------------

  lemma OneExtensionReadsBack(e: Extension, more: Bytes)
    requires e.Fits()
    ensures ReadExtensions(ExtensionBytes(e) + more)
         == match ReadExtensions(more) case None => None case Some(others) => Some([e] + others)
  {
    var data := U16(|e.data|) + e.data + more;
    assert ExtensionBytes(e) + more == U16(e.kind) + data;
    TakesU16Back(e.kind, data);
    TakesVec16Back(e.data, more);
    hide TakeU16, TakeVec16, U16;
  }

  lemma {:induction false} ExtensionsReadBack(extensions: seq<Extension>)
    requires AllFit(extensions)
    ensures ReadExtensions(Flatten(Encoded(extensions))) == Some(extensions)
  {
    if extensions != [] {
      var more := Flatten(Encoded(extensions[1..]));
      ExtensionsReadBack(extensions[1..]);
      assert Encoded(extensions)[1..] == Encoded(extensions[1..]);
      OneExtensionReadsBack(extensions[0], more);
      assert [extensions[0]] + extensions[1..] == extensions;
      hide ReadExtensions, ExtensionBytes;
    }
  }

  lemma TailReadsBack(extensions: seq<Extension>)
    requires AllFit(extensions) && |Flatten(Encoded(extensions))| < 0x1_0000
    ensures ReadTail(Tail(Encoded(extensions))) == Some(extensions)
  {
    var block := Flatten(Encoded(extensions));
    ExtensionsReadBack(extensions);
    if extensions != [] {
      TakesVec16Back(block, []);
      assert U16(|block|) + block + [] == U16(|block|) + block;
      hide TakeVec16, Flatten, ReadExtensions, Encoded;
    }
  }

  lemma SuitesReadBack(recordVersion: Word, clientVersion: Word, random: Bytes, sessionId: Bytes, suites: seq<Word>,
                       tail: Bytes)
    requires 2 * |suites| < 0x1_0000 && ReadTail(tail).Some?
    ensures ReadSuites(recordVersion, clientVersion, random, sessionId, U16(2 * |suites|) + Words(suites) + ([1, 0] + tail))
         == Some(Hello(recordVersion, clientVersion, random, sessionId, suites, [0], ReadTail(tail).value))
  {
    hide TakeVec16, TakeVec8, AllWords, Words, U16, ReadTail;
    TakesVec16Back(Words(suites), [1, 0] + tail);
    NullCompressionReadsBack(tail);
    AllWordsBack(suites);
  }

  lemma NullCompressionReadsBack(tail: Bytes)
    ensures TakeVec8([1, 0] + tail) == Some(Read([0], tail))
  {
    var zero: Bytes := [0];
    TakesVec8Back(zero, tail);
    assert [|zero|] + zero == [1, 0];
  }

  lemma BodyReadsBack(recordVersion: Word, clientVersion: Word, random: Bytes, sessionId: Bytes, suites: seq<Word>,
                      tail: Bytes)
    requires |random| == 32 && |sessionId| <= 32 && 2 * |suites| < 0x1_0000 && ReadTail(tail).Some?
    ensures ReadBody(recordVersion, HelloBody(clientVersion, random, sessionId, suites, tail))
         == Some(Hello(recordVersion, clientVersion, random, sessionId, suites, [0], ReadTail(tail).value))
  {
    hide ReadTail, ReadSuites, Words, U16, TakeVec16;
    var afterId := U16(2 * |suites|) + Words(suites) + ([1, 0] + tail);
    var afterRandom := [|sessionId|] + sessionId + afterId;
    assert HelloBody(clientVersion, random, sessionId, suites, tail) == U16(clientVersion) + (random + afterRandom);
    TakesU16Back(clientVersion, random + afterRandom);
    TakesBack(random, afterRandom);
    TakesVec8Back(sessionId, afterId);
    SuitesReadBack(recordVersion, clientVersion, random, sessionId, suites, tail);
    hide TakeU16, Take, TakeVec8, HelloBody;
  }

  /**
   * The round trip: whenever a hello can be built, an independent reader of the standard's syntax recovers every field
   * from its bytes - so each nested length says exactly what follows it - and nothing is left over.
   */
  lemma ClientHelloReadsBack(recordVersion: Word, clientVersion: Word, suites: seq<Word>, extensions: seq<Extension>,
                             sessionId: Bytes, random: Bytes)
    requires AllFit(extensions) && |sessionId| <= 32
    requires ClientHello(recordVersion, clientVersion, suites, Encoded(extensions), sessionId, random).Some?
    ensures ReadClientHello(
              ClientHello(recordVersion, clientVersion, suites, Encoded(extensions), sessionId, random).value)
         == Some(Hello(recordVersion, clientVersion, random, sessionId, suites, [0], extensions))
  {
    var tail := Tail(Encoded(extensions));
    var body := HelloBody(clientVersion, random, sessionId, suites, tail);
    var handshake := [CLIENT_HELLO] + U24(|body|) + body;
    var fragment := U16(|handshake|) + handshake;
    var record := ClientHello(recordVersion, clientVersion, suites, Encoded(extensions), sessionId, random).value;
    assert record == [HANDSHAKE_RECORD] + (U16(recordVersion) + fragment);
    hide HelloBody, Encoded, Flatten, Tail, ReadTail;
    assert record[1..] == U16(recordVersion) + fragment;
    TakesU16Back(recordVersion, fragment);
    TakesVec16Back(handshake, []);
    assert fragment + [] == fragment;
    HandshakeReadsBack(recordVersion, body);
    TailReadsBack(extensions);
    BodyReadsBack(recordVersion, clientVersion, random, sessionId, suites, tail);
    hide ReadBody, ReadHandshake, TakeU16, TakeVec16, U16, U24;
  }

  lemma HandshakeReadsBack(recordVersion: Word, body: Bytes)
    requires |body| < 0x100_0000
    ensures ReadHandshake(recordVersion, [CLIENT_HELLO] + U24(|body|) + body) == ReadBody(recordVersion, body)
  {
    var handshake := [CLIENT_HELLO] + U24(|body|) + body;
    assert handshake[1..] == U24(|body|) + body;
    TakesU24Back(|body|, body);
  }
}
