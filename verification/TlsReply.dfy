/** Reading the server's first reply from a socket that delivers the stream in arbitrary pieces. */
module TlsReply {
  import opened Options
  import opened TlsBytes
  import opened TlsServerHello

  const ALERT_RECORD: Byte := 21
  const HANDSHAKE_RECORD: Byte := 22
  const MAX_RECORD := 16384 + 2048
  const MAX_REPLY_RECORDS: nat := 3

  /** What happens on the socket after the last byte the server sends. */
  datatype Ending = Closed | TimedOut | Reset | Failed

  datatype Refusal = Alert(code: Byte) | HungUp | ConnectionReset

  datatype Fault =
    | NotTls | BadLength(length: nat) | AlertTruncated | WrongRecord(kind: Byte) | BadHello(problem: Problem)
    | DoesNotFit | Truncated(received: nat) | NoReply | SocketError

  datatype Reply = Accepted(version: Word, suite: Word) | Rejected(why: Refusal) | Error(fault: Fault)

  // --- the reply as a function of the bytes -------------------------------------------------------------------------

  function AnswerOf(parse: Parse): Reply
    requires parse != More
  {
    match parse
    case Found(version, suite) => Accepted(version, suite)
    case Unreadable(problem) => Error(BadHello(problem))
  }

  /** What is wrong with the five bytes of a record header, if anything. */
  function HeaderFault(header: Bytes): Option<Fault>
    requires |header| >= 5
  {
    if !(20 <= header[0] <= 23) || header[1] != 3 then Some(NotTls)
    else if U16At(header, 3) == 0 || U16At(header, 3) > MAX_RECORD then Some(BadLength(U16At(header, 3)))
    else None
  }

  /** One record: an answer, or None when it is a piece of a handshake message. */
  function RecordAnswer(kind: Byte, payload: Bytes): Option<Reply>
    requires payload != []
  {
    if kind == ALERT_RECORD then
      Some(if |payload| < 2 then Error(AlertTruncated) else Rejected(Alert(payload[1])))
    else if kind != HANDSHAKE_RECORD then Some(Error(WrongRecord(kind)))
    else None
  }

  /** What the first bytes of a stream decide, with `left` records still to be read; None while they decide nothing. */
  function Decided(stream: Bytes, handshake: Bytes, left: nat): Option<Reply> {
    if left == 0 then Some(Error(DoesNotFit))
    else if |stream| < 5 then None
    else if HeaderFault(stream).Some? then Some(Error(HeaderFault(stream).value))
    else
      var length: nat := U16At(stream, 3);
      if |stream| < 5 + length then None
      else
        var payload := stream[5..5 + length];
        if RecordAnswer(stream[0], payload).Some? then RecordAnswer(stream[0], payload)
        else if Parsed(handshake + payload) != More then Some(AnswerOf(Parsed(handshake + payload)))
        else Decided(stream[5 + length..], handshake + payload, left - 1)
  }

  function AtEnd(ending: Ending, received: nat): Reply {
    match ending
    case Closed => if received == 0 then Rejected(HungUp) else Error(Truncated(received))
    case Reset => Rejected(ConnectionReset)
    case TimedOut => Error(NoReply)
    case Failed => Error(SocketError)
  }

  function ReplyOf(stream: Bytes, ending: Ending): Reply {
    match Decided(stream, [], MAX_REPLY_RECORDS)
    case Some(reply) => reply
    case None => AtEnd(ending, |stream|)
  }

  // --- the reader as it is written ----------------------------------------------------------------------------------

  datatype Received = Bytes(data: Bytes) | Stop(ending: Ending)

  /** A connected socket: the bytes still to come, how it ends, and how many bytes each `recv` happens to return. */
  class Socket {
    var rest: Bytes
    const ending: Ending
    const pieces: nat -> nat
    var calls: nat

    constructor (stream: Bytes, ending: Ending, pieces: nat -> nat)
      ensures rest == stream && this.ending == ending
    {
      rest, this.ending, this.pieces, calls := stream, ending, pieces, 0;
    }

    method Recv(most: nat) returns (r: Received)
      requires most > 0
      modifies this
      ensures old(rest) == [] ==> r == Stop(ending) && rest == []
      ensures old(rest) != [] ==> r.Bytes? && 0 < |r.data| <= most && old(rest) == r.data + rest
    {
      if rest == [] {
        return Stop(ending);
      }
      var n := 1 + pieces(calls);
      if n > most { n := most; }
      if n > |rest| { n := |rest|; }
      calls := calls + 1;
      r := Bytes(rest[..n]);
      rest := rest[n..];
    }
  }

  /** Exactly `size` bytes, or the way the connection ended first; `received` counts every byte that arrived. */
  method ReadExactly(sock: Socket, size: nat, received: nat) returns (r: Received, total: nat)
    modifies sock
    ensures |old(sock.rest)| >= size ==>
      r == Bytes(old(sock.rest)[..size]) && sock.rest == old(sock.rest)[size..] && total == received + size
    ensures |old(sock.rest)| < size ==> r == Stop(sock.ending) && total == received + |old(sock.rest)|
  {
    var data: Bytes := [];
    total := received;
    while |data| < size
      invariant |data| <= size && data + sock.rest == old(sock.rest) && total == received + |data|
    {
      r := sock.Recv(size - |data|);
      if r.Stop? {
        return;
      }
      total := total + |r.data|;
      data := data + r.data;
    }
    r := Bytes(data);
  }

  method ReadReply(sock: Socket) returns (reply: Reply)
    modifies sock
    ensures reply == ReplyOf(old(sock.rest), sock.ending)
  {
    hide Decided, Parsed, U16At;
    var handshake: Bytes, received: nat, read: nat := [], 0, 0;
    ghost var stream := sock.rest;
    while read < MAX_REPLY_RECORDS
      invariant read <= MAX_REPLY_RECORDS && received + |sock.rest| == |stream|
      invariant Decided(sock.rest, handshake, MAX_REPLY_RECORDS - read) == Decided(stream, [], MAX_REPLY_RECORDS)
    {
      ghost var rest := sock.rest;
      OneRecord(rest, handshake, MAX_REPLY_RECORDS - read);
      var r, total := ReadExactly(sock, 5, received);
      received := total;
      if r.Stop? {
        return AtEnd(r.ending, received);
      }
      var header := r.data;
      SameHeader(rest);
      var fault := HeaderFault(header);
      if fault.Some? {
        return Error(fault.value);
      }
      var length: nat := U16At(header, 3);
      assert sock.rest == rest[5..];
      r, total := ReadExactly(sock, length, received);
      received := total;
      if r.Stop? {
        return AtEnd(r.ending, received);
      }
      var payload := r.data;
      assert payload == rest[5..][..length] == rest[5..5 + length];
      assert sock.rest == rest[5..][length..] == rest[5 + length..];
      var answer := RecordAnswer(header[0], payload);
      if answer.Some? {
        return answer.value;
      }
      handshake := handshake + payload;
      var parse := ParseServerHello(handshake);
      if parse != More {
        return AnswerOf(parse);
      }
      read := read + 1;
    }
    NoRecordsLeft(sock.rest, handshake);
    reply := Error(DoesNotFit);
  }

  lemma SameHeader(stream: Bytes)
    requires |stream| >= 5
    ensures U16At(stream[..5], 3) == U16At(stream, 3)
    ensures HeaderFault(stream[..5]) == HeaderFault(stream) && stream[..5][0] == stream[0]
    ensures HeaderFault(stream).None? ==> U16At(stream, 3) > 0
  {
  }

  lemma NoRecordsLeft(stream: Bytes, handshake: Bytes)
    ensures Decided(stream, handshake, 0) == Some(Error(DoesNotFit))
  {
  }

  /** The first record of a stream, taken apart. */
  lemma OneRecord(stream: Bytes, handshake: Bytes, left: nat)
    requires left > 0
    ensures |stream| < 5 ==> Decided(stream, handshake, left) == None
    ensures |stream| >= 5 && HeaderFault(stream).Some? ==>
      Decided(stream, handshake, left) == Some(Error(HeaderFault(stream).value))
    ensures |stream| >= 5 && HeaderFault(stream).None? && |stream| - 5 < U16At(stream, 3) ==>
      Decided(stream, handshake, left) == None
    ensures |stream| >= 5 && HeaderFault(stream).None? && |stream| - 5 >= U16At(stream, 3) ==>
      var payload := stream[5..5 + U16At(stream, 3) as int];
      Decided(stream, handshake, left) ==
        if RecordAnswer(stream[0], payload).Some? then RecordAnswer(stream[0], payload)
        else if Parsed(handshake + payload) != More then Some(AnswerOf(Parsed(handshake + payload)))
        else Decided(stream[5 + U16At(stream, 3) as int..], handshake + payload, left - 1)
  {
    hide Parsed, U16At;
  }

  // --- records as they are sent: section 5.1 of RFC 8446 ------------------------------------------------------------

  datatype Record = Record(kind: Byte, minor: Byte, payload: Bytes)
  {
    predicate WellFormed() { 20 <= kind <= 23 && 0 < |payload| <= MAX_RECORD }
  }

  function RecordBytes(r: Record): Bytes
    requires r.WellFormed()
  {
    [r.kind, 3, r.minor] + U16(|r.payload|) + r.payload
  }

  ghost predicate Handshakes(records: seq<Record>) {
    forall k :: 0 <= k < |records| ==> records[k].WellFormed() && records[k].kind == HANDSHAKE_RECORD
  }

  function Sent(records: seq<Record>): Bytes
    requires forall k :: 0 <= k < |records| ==> records[k].WellFormed()
  {
    if records == [] then [] else RecordBytes(records[0]) + Sent(records[1..])
  }

  function Payloads(records: seq<Record>): Bytes {
    if records == [] then [] else records[0].payload + Payloads(records[1..])
  }

  lemma RecordLayout(r: Record, more: Bytes)
    requires r.WellFormed()
    ensures var s := RecordBytes(r) + more; var n := |r.payload|;
      && |s| == 5 + n + |more| && s[0] == r.kind && U16At(s, 3) == n && HeaderFault(s).None?
      && s[5..5 + n] == r.payload && s[5 + n..] == more
  {
    var start := [r.kind, 3, r.minor];
    U16Reads(|r.payload|, start, r.payload + more);
    assert RecordBytes(r) + more == start + U16(|r.payload|) + (r.payload + more);
    hide U16At, U16;
  }

  lemma OneHandshakeRecord(r: Record, more: Bytes, handshake: Bytes, left: nat)
    requires r.WellFormed() && r.kind == HANDSHAKE_RECORD && left > 0
    ensures var next := handshake + r.payload;
      Decided(RecordBytes(r) + more, handshake, left)
      == if Parsed(next) != More then Some(AnswerOf(Parsed(next))) else Decided(more, next, left - 1)
  {
    RecordLayout(r, more);
    OneRecord(RecordBytes(r) + more, handshake, left);
    hide Parsed, Decided, RecordBytes, HeaderFault, U16At;
  }

  /** However a handshake message is cut into records, what is decided is what the parser says of their whole payload. */
  lemma {:induction false} RecordsDecide(records: seq<Record>, after: Bytes, handshake: Bytes, left: nat)
    requires Handshakes(records) && |records| <= left
    requires Parsed(handshake) == More && Parsed(handshake + Payloads(records)) != More
    ensures Decided(Sent(records) + after, handshake, left) == Some(AnswerOf(Parsed(handshake + Payloads(records))))
  {
    hide Parsed, Decided, RecordBytes, AnswerOf;
    assert handshake + [] == handshake;
    if records != [] {
      var r := records[0];
      var next := handshake + r.payload;
      assert Sent(records) + after == RecordBytes(r) + (Sent(records[1..]) + after);
      OneHandshakeRecord(r, Sent(records[1..]) + after, handshake, left);
      assert handshake + Payloads(records) == next + Payloads(records[1..]);
      if Parsed(next) == More {
        RecordsDecide(records[1..], after, next, left - 1);
      } else {
        MoreBytesChangeNothing(next, Payloads(records[1..]));
      }
    }
  }

  /**
   * Fragmentation is invisible. A ServerHello of a known version is accepted however it is cut into one to three
   * handshake records, whatever the minor versions in their headers, whatever follows it in the last record, whatever
   * bytes follow the records and however the connection ends.
   */
  lemma {:induction false} FragmentedHelloIsAccepted(h: ServerHello, records: seq<Record>, extra: Bytes, after: Bytes, ending: Ending)
    requires h.WellFormed() && KnownVersion(SelectedVersion(h))
    requires Handshakes(records) && |records| <= MAX_REPLY_RECORDS && Payloads(records) == HelloBytes(h) + extra
    ensures ReplyOf(Sent(records) + after, ending) == Accepted(SelectedVersion(h), h.suite)
  {
    ServerHelloReadsBack(h, extra);
    assert Parsed([]) == More;
    assert [] + Payloads(records) == Payloads(records);
    hide Parsed, Decided, HelloBytes, SelectedVersion;
    RecordsDecide(records, after, [], MAX_REPLY_RECORDS);
  }

  /** What has been decided stays decided: later bytes, and the end of the connection, play no part. */
  lemma {:induction false} LaterBytesChangeNothing(stream: Bytes, more: Bytes, handshake: Bytes, left: nat)
    requires Decided(stream, handshake, left).Some?
    ensures Decided(stream + more, handshake, left) == Decided(stream, handshake, left)
    decreases left
  {
    hide Parsed, U16At;
    if left > 0 {
      var all := stream + more;
      assert |stream| >= 5;
      SameFront(stream, more);
      if HeaderFault(stream).None? {
        var length: nat := U16At(stream, 3);
        assert all[5..5 + length] == stream[5..5 + length];
        assert all[5 + length..] == stream[5 + length..] + more;
        var payload := stream[5..5 + length];
        if RecordAnswer(stream[0], payload).None? && Parsed(handshake + payload) == More {
          LaterBytesChangeNothing(stream[5 + length..], more, handshake + payload, left - 1);
        }
      }
    }
  }

  lemma SameFront(stream: Bytes, more: Bytes)
    requires |stream| >= 5
    ensures U16At(stream + more, 3) == U16At(stream, 3) && HeaderFault(stream + more) == HeaderFault(stream)
    ensures HeaderFault(stream).None? ==> U16At(stream, 3) > 0
  {
  }

  /** The whole reader: bytes after those that decided, and how the connection then ends, do not change the reply. */
  lemma ReplyIgnoresWhatFollows(stream: Bytes, more: Bytes, ending: Ending, other: Ending)
    requires Decided(stream, [], MAX_REPLY_RECORDS).Some?
    ensures ReplyOf(stream + more, other) == ReplyOf(stream, ending)
  {
    hide Decided;
    LaterBytesChangeNothing(stream, more, [], MAX_REPLY_RECORDS);
  }

  // --- what a reply proves -------------------------------------------------------------------------------------------

  function FirstRecord(stream: Bytes): Record
    requires |stream| >= 5 && |stream| - 5 >= U16At(stream, 3)
  {
    Record(stream[0], stream[2], stream[5..5 + U16At(stream, 3) as int])
  }

  lemma StreamBeginsWithRecord(stream: Bytes)
    requires |stream| >= 5 && |stream| - 5 >= U16At(stream, 3) && HeaderFault(stream).None?
    ensures var r := FirstRecord(stream);
      r.WellFormed() && stream == RecordBytes(r) + stream[5 + U16At(stream, 3) as int..]
  {
    var r := FirstRecord(stream);
    U16Writes(stream, 3);
    hide U16, U16At;
    assert stream == [stream[0], stream[1], stream[2]] + stream[3..5] + r.payload + stream[5 + |r.payload|..];
  }

  /** A stream that begins with these handshake records, of which the parser has an opinion. */
  ghost predicate SpeltOut(records: seq<Record>, after: Bytes, stream: Bytes, handshake: Bytes, reply: Reply) {
    && Handshakes(records) && stream == Sent(records) + after
    && Parsed(handshake + Payloads(records)) != More && reply == AnswerOf(Parsed(handshake + Payloads(records)))
  }

  lemma OneMoreRecord(r: Record, records: seq<Record>, after: Bytes, stream: Bytes, handshake: Bytes, reply: Reply)
    requires r.WellFormed() && r.kind == HANDSHAKE_RECORD && SpeltOut(records, after, stream, handshake + r.payload, reply)
    ensures SpeltOut([r] + records, after, RecordBytes(r) + stream, handshake, reply)
  {
    hide Parsed, RecordBytes, AnswerOf;
    var all := [r] + records;
    assert all[1..] == records;
    assert Sent(all) + after == RecordBytes(r) + (Sent(records) + after);
    assert handshake + Payloads(all) == handshake + r.payload + Payloads(records);
  }

  lemma NoMoreRecords(stream: Bytes, handshake: Bytes)
    requires Parsed(handshake) != More
    ensures SpeltOut([], stream, stream, handshake, AnswerOf(Parsed(handshake)))
  {
    assert handshake + [] == handshake;
    hide Parsed;
  }

  lemma {:induction false} AcceptedRecords(stream: Bytes, handshake: Bytes, left: nat) returns (records: seq<Record>, after: Bytes)
    requires Decided(stream, handshake, left).Some? && Decided(stream, handshake, left).value.Accepted?
    ensures |records| <= left && SpeltOut(records, after, stream, handshake, Decided(stream, handshake, left).value)
    decreases left
  {
    hide Parsed, U16At, RecordBytes, SpeltOut, HeaderFault;
    OneRecord(stream, handshake, left);
    StreamBeginsWithRecord(stream);
    var r := FirstRecord(stream);
    var rest := stream[5 + |r.payload|..];
    assert r.kind == HANDSHAKE_RECORD;
    if Parsed(handshake + r.payload) == More {
      records, after := AcceptedRecords(rest, handshake + r.payload, left - 1);
    } else {
      records, after := [], rest;
      NoMoreRecords(rest, handshake + r.payload);
    }
    OneMoreRecord(r, records, after, rest, handshake, Decided(stream, handshake, left).value);
    records := [r] + records;
  }

  /** The handshake records that a reply was read from, and the hello they spell. */
  ghost predicate WasSent(records: seq<Record>, h: ServerHello, stream: Bytes, reply: Reply) {
    && Handshakes(records) && |records| <= MAX_REPLY_RECORDS && Sent(records) <= stream
    && h.WellFormed() && HelloBytes(h) <= Payloads(records)
    && KnownVersion(SelectedVersion(h)) && reply == Accepted(SelectedVersion(h), h.suite)
  }

  /**
   * "Accepted" is never guessed: the server sent at most three handshake records whose payloads begin with a
   * ServerHello that names the version and the suite reported.
   */
  lemma AcceptedWasSent(stream: Bytes, ending: Ending)
    requires ReplyOf(stream, ending).Accepted?
    ensures exists records, h :: WasSent(records, h, stream, ReplyOf(stream, ending))
  {
    hide Decided, Parsed, HelloBytes, SelectedVersion, Handshakes, Payloads, ServerHello.WellFormed;
    var records, after := AcceptedRecords(stream, [], MAX_REPLY_RECORDS);
    assert [] + Payloads(records) == Payloads(records);
    AcceptedIsServerHello(Payloads(records));
    var h: ServerHello, extra :| h.WellFormed() && Payloads(records) == HelloBytes(h) + extra
      && Parsed(Payloads(records)) == Verdict(h);
    assert WasSent(records, h, stream, ReplyOf(stream, ending));
  }
}
