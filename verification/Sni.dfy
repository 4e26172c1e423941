/**
 The ClientHello parser: how many leading bytes of a stream are the ClientHello flight,
 and which host name that flight asks for.

 Here are the parser as functions on the unread input and the cursor loops of the program,
 proved to compute them. Module SniGrammar has the flight as a grammar with a serializer,
 and the proof that the parser accepts exactly that grammar.
 */
module Sni {
  import opened Wrappers
  import opened Bytes
  import opened Slices

  datatype PeekResult = Tls(host: string) | TlsNoSni | PlainHttp | NeedMore | Unknown

  /** UTF-8 validation followed by lowercasing; `None` when the bytes are not UTF-8. */
  type Decoder = seq<byte> -> Option<string>

  const CHANGE_CIPHER_SPEC: byte := 0x14
  const HANDSHAKE: byte := 0x16
  const CLIENT_HELLO: byte := 0x01

  // ---------------------------------------------------------------- the parser

  predicate IsZero(tag: seq<byte>) {
    forall i | 0 <= i < |tag| :: tag[i] == 0
  }

  /**
   The body of the first entry whose tag is zero, in a list of entries that each carry a
   tag of `w` octets and a body with a two-octet length. Extensions have `w == 2` and
   server names `w == 1`. A truncated entry ends the search.
   */
  function FirstZero(w: nat, s: seq<byte>): Option<seq<byte>>
    decreases |s|
  {
    if |s| < w + 2 then None
    else match TakeVec16(s[w..])
      case Short => None
      case Cut(body, rest) => if IsZero(s[..w]) then Some(body) else FirstZero(w, rest)
  }

  /** The host name in the data of a server_name extension. */
  function ExtensionHost(data: seq<byte>): Option<seq<byte>> {
    match TakeVec16(data)
    case Short => None
    case Cut(list, _) => FirstZero(1, list)
  }

  /**
   The extension block of a ClientHello handshake message. The three octets after the
   message type are not read, nor is anything behind the block.
   */
  function ExtensionBlock(data: seq<byte>): Option<seq<byte>> {
    if |data| < 38 || data[0] != CLIENT_HELLO then None
    else match TakeVec8(data[38..])
      case Short => None
      case Cut(_, rest) => AfterSessionId(rest)
  }

  function AfterSessionId(s: seq<byte>): Option<seq<byte>> {
    match TakeVec16(s)
    case Short => None
    case Cut(_, rest) => AfterCipherSuites(rest)
  }

  function AfterCipherSuites(s: seq<byte>): Option<seq<byte>> {
    match TakeVec8(s)
    case Short => None
    case Cut(_, rest) => match TakeVec16(rest)
      case Short => None
      case Cut(block, _) => Some(block)
  }

  /** The host name in a ClientHello: that of the first server_name extension or none. */
  function HelloHost(data: seq<byte>): Option<seq<byte>> {
    match ExtensionBlock(data)
    case None => None
    case Some(block) => match FirstZero(2, block)
      case None => None
      case Some(ext) => ExtensionHost(ext)
  }

  function Decoded(host: Option<seq<byte>>, text: Decoder): PeekResult {
    match host
    case None => TlsNoSni
    case Some(name) => match text(name)
      case None => TlsNoSni
      case Some(h) => Tls(h)
  }

  function HandshakeResult(record: seq<byte>, text: Decoder): PeekResult {
    if |record| < 5 || record[0] != HANDSHAKE then Unknown
    else if record[1] != 3 || record[2] > 4 then Unknown
    else Decoded(HelloHost(record[5..]), text)
  }

  /** The place of the first handshake record behind any ChangeCipherSpec records. */
  datatype Located = Incomplete | NotTls | Found(start: nat, end: nat)

  function Locate(s: seq<byte>): (l: Located)
    ensures l.Found? ==> l.start + 5 <= l.end <= |s| && s[l.start] == HANDSHAKE
    decreases |s|
  {
    if |s| < 5 then Incomplete
    else if s[0] != CHANGE_CIPHER_SPEC && s[0] != HANDSHAKE then NotTls
    else
      var end := 5 + U16(s[3], s[4]);
      if end > |s| then Incomplete
      else if s[0] == HANDSHAKE then Found(0, end)
      else match Locate(s[end..])
        case Found(a, b) => Found(end + a, end + b)
        case other => other
  }

  const METHODS: seq<seq<byte>> := [
    [0x47, 0x45, 0x54, 0x20], [0x50, 0x4f, 0x53, 0x54], [0x48, 0x45, 0x41, 0x44], [0x50, 0x55, 0x54, 0x20],
    [0x44, 0x45, 0x4c, 0x45], [0x4f, 0x50, 0x54, 0x49], [0x50, 0x41, 0x54, 0x43], [0x43, 0x4f, 0x4e, 0x4e]
  ]

  /** The input starts like an HTTP request. */
  predicate IsPlainHttp(s: seq<byte>) {
    exists m :: m in METHODS && m <= s
  }

  /** The verdict on the bytes read so far, and the length of the flight to replay. */
  function Parse(buf: seq<byte>, text: Decoder): (r: (PeekResult, nat))
    ensures r.1 <= |buf|
  {
    if |buf| < 5 then (NeedMore, 0)
    else if IsPlainHttp(buf) then (PlainHttp, 0)
    else match Locate(buf)
      case Incomplete => (NeedMore, 0)
      case NotTls => (Unknown, 0)
      case Found(a, b) => (HandshakeResult(buf[a..b], text), b)
  }

  // ------------------------------------------------- the program's cursor loops

  method ParseSniWithReplay(buf: seq<byte>, text: Decoder) returns (r: PeekResult, replay: nat)
    ensures (r, replay) == Parse(buf, text)
  {
    hide HandshakeResult;
    hide IsPlainHttp;
    hide Locate;
    if |buf| < 5 {
      return NeedMore, 0;
    }
    var prefix := buf[..if |buf| < 8 then |buf| else 8];
    var http := StartsLikeHttp(prefix);
    HttpPrefix(buf, |prefix|);
    if http {
      return PlainHttp, 0;
    }
    var offset := 0;
    assert buf[0..] == buf;
    while offset + 5 <= |buf|
      invariant 0 <= offset <= |buf|
      invariant Locate(buf) == Shift(Locate(buf[offset..]), offset)
    {
      LocateAt(buf, offset);
      var recordType := buf[offset];
      if recordType != CHANGE_CIPHER_SPEC && recordType != HANDSHAKE {
        return Unknown, 0;
      }
      var recordEnd := offset + 5 + U16(buf[offset + 3], buf[offset + 4]);
      if recordEnd > |buf| {
        return NeedMore, 0;
      }
      if recordType == HANDSHAKE {
        r := ParseTlsHandshakeRecord(buf[offset..recordEnd], text);
        return r, recordEnd;
      }
      offset := recordEnd;
    }
    LocateAt(buf, offset);
    return NeedMore, 0;
  }

  /** One turn of the record loop, on the input from `offset`. */
  lemma LocateAt(buf: seq<byte>, offset: nat)
    requires offset <= |buf|
    ensures Locate(buf[offset..]) ==
            if offset + 5 > |buf| then Incomplete else
            var end := offset + 5 + U16(buf[offset + 3], buf[offset + 4]);
            if buf[offset] != CHANGE_CIPHER_SPEC && buf[offset] != HANDSHAKE then NotTls
            else if end > |buf| then Incomplete
            else if buf[offset] == HANDSHAKE then Found(0, end - offset)
            else Shift(Locate(buf[end..]), end - offset)
  {
  }

  /** The first eight bytes decide whether the input looks like HTTP. */
  lemma HttpPrefix(buf: seq<byte>, n: nat)
    ensures 4 <= n <= |buf| ==> IsPlainHttp(buf[..n]) == IsPlainHttp(buf)
  {
  }

  function Shift(l: Located, k: nat): Located {
    match l
    case Found(a, b) => Found(k + a, k + b)
    case _ => l
  }

  method StartsLikeHttp(prefix: seq<byte>) returns (http: bool)
    ensures http == IsPlainHttp(prefix)
  {
    for i := 0 to |METHODS|
      invariant forall k | 0 <= k < i :: !(METHODS[k] <= prefix)
    {
      if METHODS[i] <= prefix {
        assert METHODS[i] in METHODS;
        return true;
      }
    }
    return false;
  }

  method ParseTlsHandshakeRecord(record: seq<byte>, text: Decoder) returns (r: PeekResult)
    ensures r == HandshakeResult(record, text)
  {
    if |record| < 5 || record[0] != HANDSHAKE {
      return Unknown;
    }
    if record[1] != 3 || record[2] > 4 {
      return Unknown;
    }
    r := ParseClientHello(record[5..], text);
  }

  method ParseClientHello(data: seq<byte>, text: Decoder) returns (r: PeekResult)
    ensures r == Decoded(HelloHost(data), text)
  {
    hide FirstZero;
    hide ExtensionHost;
    hide ExtensionBlock;
    hide AfterSessionId;
    hide AfterCipherSuites;
    ExtensionBlockAt(data);
    var pos := 0;
    if pos >= |data| || data[pos] != CLIENT_HELLO { return TlsNoSni; }
    pos := pos + 1;
    if pos + 3 > |data| { return TlsNoSni; }
    pos := pos + 3;
    if pos + 2 > |data| { return TlsNoSni; }
    pos := pos + 2;
    if pos + 32 > |data| { return TlsNoSni; }
    pos := pos + 32;

    if pos >= |data| { return TlsNoSni; }
    var sessionIdLen: nat := data[pos];
    pos := pos + 1 + sessionIdLen;

    if pos <= |data| { AfterSessionIdAt(data, pos); }
    if pos + 2 > |data| { return TlsNoSni; }
    var suitesLen := U16(data[pos], data[pos + 1]);
    pos := pos + 2 + suitesLen;

    if pos <= |data| { AfterCipherSuitesAt(data, pos); }
    if pos >= |data| { return TlsNoSni; }
    var compressionLen: nat := data[pos];
    pos := pos + 1 + compressionLen;

    if pos + 2 > |data| { return TlsNoSni; }
    var extTotal := U16(data[pos], data[pos + 1]);
    pos := pos + 2;
    var extEnd := pos + extTotal;
    if extEnd > |data| { return TlsNoSni; }
    r := WalkExtensions(data, pos, extEnd, text);
  }

  lemma ExtensionBlockAt(data: seq<byte>)
    ensures ExtensionBlock(data) ==
            if |data| < 39 || data[0] != CLIENT_HELLO then None else
            var n: nat := data[38];
            if 39 + n > |data| then None else AfterSessionId(data[39 + n..|data|])
  {
    if |data| >= 38 {
      assert data[38..|data|] == data[38..];
      TakeVec8At(data, 38, |data|);
    }
  }

  lemma AfterSessionIdAt(data: seq<byte>, pos: nat)
    requires pos <= |data|
    ensures AfterSessionId(data[pos..|data|]) ==
            if pos + 2 > |data| then None else
            var next := pos + 2 + U16(data[pos], data[pos + 1]);
            if next > |data| then None else AfterCipherSuites(data[next..|data|])
  {
  }

  lemma AfterCipherSuitesAt(data: seq<byte>, pos: nat)
    requires pos <= |data|
    ensures AfterCipherSuites(data[pos..|data|]) ==
            if pos >= |data| then None else
            var n: nat := data[pos];
            var next := pos + 1 + n;
            if next + 2 > |data| then None else
            var end := next + 2 + U16(data[next], data[next + 1]);
            if end > |data| then None else Some(data[next + 2..end])
  {
    hide TakeVec8, TakeVec16, U16;
    TakeVec8At(data, pos, |data|);
    if pos < |data| {
      var n: nat := data[pos];
      if pos + 1 + n <= |data| {
        TakeVec16At(data, pos + 1 + n, |data|);
      }
    }
  }

  /** The extension loop of `parse_client_hello`, from `start` to the end of the block. */
  method WalkExtensions(data: seq<byte>, start: nat, extEnd: nat, text: Decoder) returns (r: PeekResult)
    requires start <= extEnd <= |data|
    ensures r == Decoded(match FirstZero(2, data[start..extEnd]) case None => None case Some(e) => ExtensionHost(e), text)
  {
    hide FirstZero;
    var pos := start;
    while pos + 4 <= extEnd
      invariant start <= pos <= extEnd
      invariant FirstZero(2, data[start..extEnd]) == FirstZero(2, data[pos..extEnd])
    {
      FirstZeroAt(2, data, pos, extEnd);
      TagIsZero(data, pos);
      var extType := U16(data[pos], data[pos + 1]);
      var extLen := U16(data[pos + 2], data[pos + 3]);
      pos := pos + 4;
      if pos + extLen > extEnd { return TlsNoSni; }
      if extType == 0 {
        var name := ParseSniExtension(data[pos..pos + extLen], text);
        return match name case Some(h) => Tls(h) case None => TlsNoSni;
      }
      pos := pos + extLen;
    }
    FirstZeroAt(2, data, pos, extEnd);
    return TlsNoSni;
  }

  method ParseSniExtension(data: seq<byte>, text: Decoder) returns (r: Option<string>)
    ensures r == match ExtensionHost(data) case None => None case Some(name) => text(name)
  {
    hide FirstZero;
    if |data| < 2 { return None; }
    var listLen := U16(data[0], data[1]);
    if |data| < 2 + listLen { return None; }
    var pos := 2;
    var listEnd := 2 + listLen;
    while pos + 3 <= listEnd
      invariant 2 <= pos <= listEnd
      invariant ExtensionHost(data) == FirstZero(1, data[pos..listEnd])
    {
      FirstZeroAt(1, data, pos, listEnd);
      TagIsZero(data, pos);
      var nameType := data[pos];
      var nameLen := U16(data[pos + 1], data[pos + 2]);
      pos := pos + 3;
      if pos + nameLen > listEnd { return None; }
      if nameType == 0 {
        return text(data[pos..pos + nameLen]);
      }
      pos := pos + nameLen;
    }
    FirstZeroAt(1, data, pos, listEnd);
    return None;
  }

  lemma TakeVec8At(data: seq<byte>, pos: nat, end: nat)
    requires pos <= end <= |data|
    ensures TakeVec8(data[pos..end]) ==
            if pos + 1 > end then Short else
            var n: nat := data[pos];
            if pos + 1 + n > end then Short else Cut(data[pos + 1..pos + 1 + n], data[pos + 1 + n..end])
  {
    if pos < end {
      assert data[pos..end][0] == data[pos];
      var n: nat := data[pos];
      if pos + 1 + n <= end {
        SliceOfSlice(data, pos, end, 1, 1 + n);
        SliceOfSlice(data, pos, end, 1 + n, end - pos);
      }
    }
  }

  /** Cutting a vector off the part of `data` from `pos` to `end`. */
  lemma TakeVec16At(data: seq<byte>, pos: nat, end: nat)
    requires pos <= end <= |data|
    ensures TakeVec16(data[pos..end]) ==
            if pos + 2 > end then Short else
            var n := U16(data[pos], data[pos + 1]);
            if pos + 2 + n > end then Short else Cut(data[pos + 2..pos + 2 + n], data[pos + 2 + n..end])
  {
    var s := data[pos..end];
    if pos + 2 <= end {
      assert s[0] == data[pos] && s[1] == data[pos + 1];
      var n := U16(data[pos], data[pos + 1]);
      if pos + 2 + n <= end {
        SliceOfSlice(data, pos, end, 2, 2 + n);
        SliceOfSlice(data, pos, end, 2 + n, end - pos);
      }
    }
  }

  lemma TagIsZero(data: seq<byte>, pos: nat)
    requires pos + 2 <= |data|
    ensures U16(data[pos], data[pos + 1]) == 0 <==> IsZero(data[pos..pos + 2])
    ensures data[pos] == 0 <==> IsZero(data[pos..pos + 1])
  {
  }

  /** One turn of an entry loop, on the part of `data` from `pos` to `end`. */
  lemma FirstZeroAt(w: nat, data: seq<byte>, pos: nat, end: nat)
    requires pos <= end <= |data|
    ensures FirstZero(w, data[pos..end]) ==
            if pos + w + 2 > end then None else
            var body := pos + w + 2; var next := body + U16(data[pos + w], data[pos + w + 1]);
            if next > end then None
            else if IsZero(data[pos..pos + w]) then Some(data[body..next])
            else FirstZero(w, data[next..end])
  {
    hide TakeVec16;
    hide IsZero;
    if pos + w + 2 <= end {
      SliceOfSlice(data, pos, end, w, end - pos);
      SliceOfSlice(data, pos, end, 0, w);
      TakeVec16At(data, pos + w, end);
    }
  }
}
