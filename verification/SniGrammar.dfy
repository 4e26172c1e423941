/**
 The ClientHello flight as a grammar: what a peer may write, and where the host name sits
 in it. A flight is any number of ChangeCipherSpec records (appendix D.4 of RFC 8446) and
 one handshake record (section 5.1) that holds a ClientHello (section 4.1.2) with a
 server_name extension (section 3 of RFC 6066).

 The grammar is as liberal as the parser: the handshake length is any three octets,
 anything may follow the first server_name extension inside the extension block, the
 first host_name inside the extension, and the ClientHello inside its record.
 */
module SniGrammar {
  import opened Wrappers
  import opened Bytes
  import opened Sni

  /** An extension (two-octet tag) or a server name (one-octet tag). */
  datatype Entry = Entry(tag: seq<byte>, body: seq<byte>)

  function Zeros(w: nat): (z: seq<byte>)
    ensures |z| == w && IsZero(z)
  {
    seq(w, _ => 0)
  }

  function Entries(es: seq<Entry>): seq<byte> {
    if es == [] then [] else es[0].tag + (Vec16(es[0].body) + Entries(es[1..]))
  }

  /** Entries with tags of `w` octets, none of them the tag zero. */
  predicate NonZero(w: nat, es: seq<Entry>) {
    forall e | e in es :: |e.tag| == w && |e.body| < 65536 && !IsZero(e.tag)
  }

  /** A list of entries whose first zero tag belongs to `body`. */
  function WithZero(w: nat, es: seq<Entry>, body: seq<byte>, tail: seq<byte>): seq<byte> {
    Entries(es) + (Zeros(w) + (Vec16(body) + tail))
  }

  /** The data of a server_name extension; `pad` may follow the list inside it. */
  datatype Names = Names(others: seq<Entry>, host: seq<byte>, tail: seq<byte>, pad: seq<byte>) {
    function List(): seq<byte> {
      WithZero(1, others, host, tail)
    }

    function Data(): seq<byte> {
      Vec16(List()) + pad
    }

    predicate Ok() {
      NonZero(1, others) && |host| < 65536 && |List()| < 65536
    }
  }

  /** A ClientHello message; `preamble` is its length, version and random. */
  datatype Hello = Hello(
    preamble: seq<byte>, sessionId: seq<byte>, suites: seq<byte>, compression: seq<byte>,
    before: seq<Entry>, names: Names, after: seq<byte>, trailer: seq<byte>)
  {
    function Block(): seq<byte> {
      WithZero(2, before, names.Data(), after)
    }

    function Message(): seq<byte> {
      [0x01] + preamble + (Vec8(sessionId) + (Vec16(suites) + (Vec8(compression) + (Vec16(Block()) + trailer))))
    }

    predicate Ok() {
      && |preamble| == 37 && |sessionId| < 256 && |suites| < 65536 && |compression| < 256
      && NonZero(2, before) && names.Ok() && |names.Data()| < 65536 && |Block()| < 65536
    }
  }

  datatype Record = Record(version: seq<byte>, payload: seq<byte>) {
    function Bytes(kind: byte): seq<byte> {
      [kind] + version + Vec16(payload)
    }

    predicate Ok() {
      |version| == 2 && |payload| < 65536
    }
  }

  function Records(rs: seq<Record>): seq<byte> {
    if rs == [] then [] else rs[0].Bytes(0x14) + Records(rs[1..])
  }

  datatype Flight = Flight(ccs: seq<Record>, version: seq<byte>, hello: Hello) {
    function HelloRecord(): seq<byte> {
      Record(version, hello.Message()).Bytes(0x16)
    }

    function Bytes(): seq<byte> {
      Records(ccs) + HelloRecord()
    }

    predicate Ok() {
      && (forall r | r in ccs :: r.Ok())
      && |version| == 2 && version[0] == 3 && version[1] <= 4
      && hello.Ok() && |hello.Message()| < 65536
    }
  }

  // ------------------------------------------------------------- entry lists

  lemma {:induction false} FirstZeroFinds(w: nat, es: seq<Entry>, body: seq<byte>, tail: seq<byte>)
    requires NonZero(w, es) && |body| < 65536
    ensures FirstZero(w, WithZero(w, es, body, tail)) == Some(body)
  {
    var s := WithZero(w, es, body, tail);
    if es == [] {
      assert s == Zeros(w) + (Vec16(body) + tail);
      assert s[..w] == Zeros(w) && s[w..] == Vec16(body) + tail;
      TakeVec16Reads(body, tail);
    } else {
      var rest := WithZero(w, es[1..], body, tail);
      assert es[0] in es;
      assert s == es[0].tag + (Vec16(es[0].body) + rest);
      assert s[..w] == es[0].tag && s[w..] == Vec16(es[0].body) + rest;
      TakeVec16Reads(es[0].body, rest);
      FirstZeroFinds(w, es[1..], body, tail);
    }
  }

  lemma {:induction false} FirstZeroExplained(w: nat, s: seq<byte>) returns (es: seq<Entry>, tail: seq<byte>)
    requires FirstZero(w, s).Some?
    ensures NonZero(w, es) && |FirstZero(w, s).value| < 65536
    ensures s == WithZero(w, es, FirstZero(w, s).value, tail)
    decreases |s|
  {
    hide TakeVec16;
    hide Vec16;
    hide IsZero;
    var c := TakeVec16(s[w..]);
    TakeVec16Splits(s[w..]);
    assert s == s[..w] + (Vec16(c.body) + c.rest);
    if IsZero(s[..w]) {
      es, tail := [], c.rest;
      ZeroTag(w, s[..w]);
    } else {
      var es', tail' := FirstZeroExplained(w, c.rest);
      es, tail := [Entry(s[..w], c.body)] + es', tail';
    }
  }

  lemma ZeroTag(w: nat, tag: seq<byte>)
    ensures |tag| == w && IsZero(tag) ==> tag == Zeros(w)
  {
  }

  // -------------------------------------------------------------- ClientHello

  lemma HelloFinds(h: Hello)
    requires h.Ok()
    ensures HelloHost(h.Message()) == Some(h.names.host)
  {
    hide FirstZero;
    hide TakeVec8;
    hide TakeVec16;
    hide Vec8;
    hide Vec16;
    var s4 := Vec16(h.Block()) + h.trailer;
    var s3 := Vec8(h.compression) + s4;
    var s2 := Vec16(h.suites) + s3;
    assert h.Message()[38..] == Vec8(h.sessionId) + s2;
    TakeVec8Reads(h.sessionId, s2);
    TakeVec16Reads(h.suites, s3);
    TakeVec8Reads(h.compression, s4);
    TakeVec16Reads(h.Block(), h.trailer);
    FirstZeroFinds(2, h.before, h.names.Data(), h.after);
    TakeVec16Reads(h.names.List(), h.names.pad);
    FirstZeroFinds(1, h.names.others, h.names.host, h.names.tail);
  }

  lemma HelloExplained(data: seq<byte>) returns (h: Hello)
    requires HelloHost(data).Some?
    ensures h.Ok() && data == h.Message() && h.names.host == HelloHost(data).value
  {
    hide TakeVec8;
    hide TakeVec16;
    hide Vec16;
    hide FirstZero;
    var c0 := TakeVec8(data[38..]);
    var c1 := TakeVec16(c0.rest);
    var c2 := TakeVec8(c1.rest);
    var c3 := TakeVec16(c2.rest);
    TakeVec8Splits(data[38..]);
    TakeVec16Splits(c0.rest);
    TakeVec8Splits(c1.rest);
    TakeVec16Splits(c2.rest);
    var before, after := FirstZeroExplained(2, c3.body);
    var ext := FirstZero(2, c3.body).value;
    NamesExplained(ext);
    var names: Names :| names.Ok() && ext == names.Data() && names.host == ExtensionHost(ext).value;
    h := Hello(data[1..38], c0.body, c1.body, c2.body, before, names, after, c3.rest);
    assert data == [CLIENT_HELLO] + data[1..38] + data[38..];
  }

  lemma NamesExplained(data: seq<byte>)
    requires ExtensionHost(data).Some?
    ensures exists n: Names :: n.Ok() && data == n.Data() && n.host == ExtensionHost(data).value
  {
    TakeVec16Splits(data);
    var list := TakeVec16(data);
    var others, tail := FirstZeroExplained(1, list.body);
    var n := Names(others, FirstZero(1, list.body).value, tail, list.rest);
    assert n.Ok() && data == n.Data();
  }

  // ------------------------------------------------------------------ records

  lemma {:induction false} LocateFinds(ccs: seq<Record>, record: Record, rest: seq<byte>)
    requires forall r | r in ccs :: r.Ok()
    requires record.Ok()
    ensures var hello := record.Bytes(HANDSHAKE); var n := |Records(ccs)|;
            Locate(Records(ccs) + hello + rest) == Found(n, n + |hello|)
  {
    hide Record.Bytes, Locate;
    var hello := record.Bytes(HANDSHAKE);
    if ccs == [] {
      assert Records(ccs) + hello + rest == hello + rest;
      LocateHello(record, rest);
    } else {
      assert ccs[0] in ccs;
      var first, next := ccs[0].Bytes(CHANGE_CIPHER_SPEC), Records(ccs[1..]) + hello + rest;
      assert Records(ccs) + hello + rest == first + next;
      LocateFinds(ccs[1..], record, rest);
      LocateNext(ccs[0], next);
    }
  }

  lemma LocateHello(record: Record, rest: seq<byte>)
    requires record.Ok()
    ensures var hello := record.Bytes(HANDSHAKE); Locate(hello + rest) == Found(0, |hello|)
  {
    HeaderReads(HANDSHAKE, record, record.Bytes(HANDSHAKE) + rest, rest);
    hide Record.Bytes, U16;
  }

  lemma LocateNext(ccs: Record, next: seq<byte>)
    requires ccs.Ok()
    ensures var first := ccs.Bytes(CHANGE_CIPHER_SPEC);
            Locate(first + next) == match Locate(next)
              case Found(a, b) => Found(|first| + a, |first| + b)
              case other => other
  {
    HeaderReads(CHANGE_CIPHER_SPEC, ccs, ccs.Bytes(CHANGE_CIPHER_SPEC) + next, next);
    hide Record.Bytes, U16;
  }

  lemma HeaderReads(kind: byte, r: Record, s: seq<byte>, rest: seq<byte>)
    requires r.Ok() && s == r.Bytes(kind) + rest
    ensures |s| >= 5 && s[0] == kind && 5 + U16(s[3], s[4]) == |r.Bytes(kind)|
    ensures s[..|r.Bytes(kind)|] == r.Bytes(kind) && s[|r.Bytes(kind)|..] == rest
  {
  }

  lemma {:induction false} LocateExplained(s: seq<byte>) returns (ccs: seq<Record>)
    requires Locate(s).Found?
    ensures forall r | r in ccs :: r.Ok()
    ensures s[..Locate(s).start] == Records(ccs)
    decreases |s|
  {
    ccs := [];
    if s[0] == CHANGE_CIPHER_SPEC {
      var end := 5 + U16(s[3], s[4]);
      var l := Locate(s[end..]);
      assert Locate(s).start == end + l.start;
      hide Locate;
      hide U16;
      var tail := LocateExplained(s[end..]);
      hide Records;
      ccs := OneMore(s, end, l.start, tail);
    }
  }

  lemma OneMore(s: seq<byte>, end: nat, more: nat, tail: seq<Record>) returns (ccs: seq<Record>)
    requires 5 <= |s| && end == 5 + U16(s[3], s[4]) && end + more <= |s| && s[0] == CHANGE_CIPHER_SPEC
    requires (forall r | r in tail :: r.Ok()) && s[end..][..more] == Records(tail)
    ensures (forall r | r in ccs :: r.Ok()) && s[..end + more] == Records(ccs)
  {
    hide U16;
    var first := Record(s[1..3], s[5..end]);
    assert s[..end][1..3] == s[1..3] && s[..end][5..] == s[5..end];
    HeaderExplained(s[..end]);
    ccs := [first] + tail;
    assert ccs[1..] == tail;
    hide Record.Bytes;
    assert s[..end + more] == s[..end] + s[end..][..more];
  }

  lemma HeaderExplained(s: seq<byte>)
    requires |s| >= 5 && |s| == 5 + U16(s[3], s[4])
    ensures s == Record(s[1..3], s[5..]).Bytes(s[0])
    ensures Record(s[1..3], s[5..]).Ok()
  {
    EncodesBack(s[3], s[4]);
    hide U16, EncodeU16;
    assert s[3..5] == [s[3], s[4]];
    assert s == [s[0]] + s[1..3] + s[3..5] + s[5..];
  }

  lemma EncodesBack(hi: byte, lo: byte)
    ensures EncodeU16(U16(hi, lo)) == [hi, lo] && U16(hi, lo) < 65536
  {
  }

  // ------------------------------------------------------------ main theorems

  /**
   Completeness: a well-formed flight, whatever follows it on the stream, gives its own
   host name, decoded, and a replay that ends exactly where the flight ends.
   */
  lemma Complete(f: Flight, rest: seq<byte>, text: Decoder)
    requires f.Ok()
    ensures Parse(f.Bytes() + rest, text) == (Decoded(Some(f.hello.names.host), text), |f.Bytes()|)
  {
    hide Locate;
    hide IsPlainHttp;
    hide HelloHost;
    hide Vec16;
    var buf := f.Bytes() + rest;
    var record := Record(f.version, f.hello.Message());
    HelloRecordReads(f, text);
    StartsWithRecord(f.ccs, f.HelloRecord() + rest);
    assert buf == Records(f.ccs) + (f.HelloRecord() + rest) == Records(f.ccs) + f.HelloRecord() + rest;
    LocateFinds(f.ccs, record, rest);
    var n := |Records(f.ccs)|;
    assert buf[n..n + |f.HelloRecord()|] == f.HelloRecord();
  }

  lemma HelloRecordReads(f: Flight, text: Decoder)
    requires f.Ok()
    ensures |f.HelloRecord()| >= 5 && f.HelloRecord()[0] == HANDSHAKE
    ensures HandshakeResult(f.HelloRecord(), text) == Decoded(Some(f.hello.names.host), text)
  {
    HelloFinds(f.hello);
    RecordReads(HANDSHAKE, Record(f.version, f.hello.Message()));
    hide HelloHost;
    hide Hello.Message;
    hide Record.Bytes;
  }

  lemma RecordReads(kind: byte, r: Record)
    requires |r.version| == 2
    ensures var b := r.Bytes(kind);
            |b| >= 5 && b[0] == kind && b[1] == r.version[0] && b[2] == r.version[1] && b[5..] == r.payload
  {
  }

  lemma StartsWithRecord(ccs: seq<Record>, rest: seq<byte>)
    requires |rest| >= 1 && rest[0] == HANDSHAKE
    ensures !IsPlainHttp(Records(ccs) + rest)
  {
    var s := Records(ccs) + rest;
    assert s[0] == HANDSHAKE || s[0] == CHANGE_CIPHER_SPEC;
    forall m | m in METHODS
      ensures !(m <= s)
    {
      assert m[0] != s[0];
    }
  }

  /**
   Soundness: a host name is only ever reported for a prefix of the input that is a
   well-formed flight with that host name in it, and the replay is that prefix.
   */
  lemma Sound(buf: seq<byte>, text: Decoder) returns (f: Flight)
    ensures var (result, n) := Parse(buf, text);
            result.Tls? ==> f.Ok() && f.Bytes() == buf[..n] && text(f.hello.names.host) == Some(result.host)
  {
    hide *;
    f := Flight([], [], Hello([], [], [], [], [], Names([], [], [], []), [], []));
    if Parse(buf, text).0.Tls? {
      TlsMeans(buf, text);
      var l := Locate(buf);
      RecordLocated(buf);
      var ccs := LocateExplained(buf);
      var record := buf[l.start..l.end];
      var hello := HelloExplained(record[5..]);
      f := Assembled(ccs, hello, record);
      assert buf[..l.end] == buf[..l.start] + record;
    }
  }

  /** What a reported host says about the located record. */
  lemma TlsMeans(buf: seq<byte>, text: Decoder)
    ensures Parse(buf, text).0.Tls? ==>
            && Locate(buf).Found? && Parse(buf, text).1 == Locate(buf).end
            && var record := buf[Locate(buf).start..Locate(buf).end];
               && |record| >= 5 && record[1] == 3 && record[2] <= 4
               && HelloHost(record[5..]).Some? && text(HelloHost(record[5..]).value) == Some(Parse(buf, text).0.host)
  {
    hide Locate, IsPlainHttp, HelloHost;
  }

  lemma RecordLocated(buf: seq<byte>)
    requires Locate(buf).Found?
    ensures var record := buf[Locate(buf).start..Locate(buf).end];
            |record| >= 5 && record[0] == HANDSHAKE && |record| == 5 + U16(record[3], record[4])
  {
    hide Locate, U16;
    var l := Locate(buf);
    LocateLength(buf);
    assert buf[l.start..l.end][3] == buf[l.start + 3] && buf[l.start..l.end][4] == buf[l.start + 4];
  }

  lemma Assembled(ccs: seq<Record>, hello: Hello, record: seq<byte>) returns (f: Flight)
    requires (forall r | r in ccs :: r.Ok()) && hello.Ok()
    requires |record| >= 5 && |record| == 5 + U16(record[3], record[4]) && record[0] == HANDSHAKE
    requires record[1] == 3 && record[2] <= 4 && record[5..] == hello.Message()
    ensures f.Ok() && f.Bytes() == Records(ccs) + record && f.hello == hello
  {
    hide Records, Hello.Message, Hello.Ok, U16;
    HeaderExplained(record);
    f := Flight(ccs, record[1..3], hello);
    hide Record.Bytes;
    assert f.HelloRecord() == record;
  }

  lemma {:induction false} LocateLength(s: seq<byte>)
    requires Locate(s).Found?
    ensures var l := Locate(s); l.end == l.start + 5 + U16(s[l.start + 3], s[l.start + 4])
    decreases |s|
  {
    if s[0] != HANDSHAKE {
      LocateLength(s[5 + U16(s[3], s[4])..]);
    }
  }

  /** `f` is a flight of `n` bytes at the front of the input, with the host name `h`. */
  ghost predicate IsFlight(f: Flight, buf: seq<byte>, text: Decoder, h: string, n: nat) {
    f.Ok() && f.Bytes() <= buf && |f.Bytes()| == n && text(f.hello.names.host) == Some(h)
  }

  /** The parser reports `h` with a replay of `n` bytes for exactly the flights of the grammar. */
  lemma AcceptsExactlyTheGrammar(buf: seq<byte>, text: Decoder, h: string, n: nat)
    ensures Parse(buf, text) == (Tls(h), n) <==> exists f: Flight :: IsFlight(f, buf, text, h, n)
  {
    hide Flight.Bytes;
    hide Flight.Ok;
    hide Parse;
    if Parse(buf, text) == (Tls(h), n) {
      var f := Sound(buf, text);
      assert IsFlight(f, buf, text, h, n);
    }
    forall f: Flight | IsFlight(f, buf, text, h, n)
      ensures Parse(buf, text) == (Tls(h), n)
    {
      CompleteAt(f, buf, text);
    }
  }

  lemma CompleteAt(f: Flight, buf: seq<byte>, text: Decoder)
    requires f.Ok() && f.Bytes() <= buf
    ensures Parse(buf, text) == (Decoded(Some(f.hello.names.host), text), |f.Bytes()|)
  {
    var rest := buf[|f.Bytes()|..];
    Complete(f, rest, text);
    assert buf == f.Bytes() + rest;
  }

  /** Any verdict other than "need more" stands however the stream goes on. */
  lemma Stable(buf: seq<byte>, more: seq<byte>, text: Decoder)
    ensures Parse(buf, text).0 != NeedMore ==> Parse(buf + more, text) == Parse(buf, text)
  {
    hide Locate, IsPlainHttp, HandshakeResult;
    if Parse(buf, text).0 != NeedMore {
      HttpPrefix(buf + more, |buf|);
      assert (buf + more)[..|buf|] == buf;
      if !IsPlainHttp(buf) {
        LocateStable(buf, more);
        var l := Locate(buf);
        if l.Found? {
          assert (buf + more)[l.start..l.end] == buf[l.start..l.end];
        }
      }
    }
  }

  lemma {:induction false} LocateStable(s: seq<byte>, more: seq<byte>)
    requires !Locate(s).Incomplete?
    ensures Locate(s + more) == Locate(s)
    decreases |s|
  {
    hide Locate, U16;
    var t := s + more;
    LocateUnfolds(s);
    LocateUnfolds(t);
    assert t[0] == s[0] && t[3] == s[3] && t[4] == s[4];
    if s[0] == CHANGE_CIPHER_SPEC {
      var end := 5 + U16(s[3], s[4]);
      assert t[end..] == s[end..] + more;
      LocateStable(s[end..], more);
    }
  }

  lemma LocateUnfolds(s: seq<byte>)
    ensures Locate(s) ==
      if |s| < 5 then Incomplete
      else if s[0] != CHANGE_CIPHER_SPEC && s[0] != HANDSHAKE then NotTls
      else
        var end := 5 + U16(s[3], s[4]);
        if end > |s| then Incomplete
        else if s[0] == HANDSHAKE then Found(0, end)
        else match Locate(s[end..])
          case Found(a, b) => Found(end + a, end + b)
          case other => other
  {
    hide U16;
  }

  /** No proper prefix of a flight is ever misjudged: the parser asks for more. */
  lemma PrefixNeedsMore(f: Flight, k: nat, text: Decoder)
    requires f.Ok() && k < |f.Bytes()|
    ensures Parse(f.Bytes()[..k], text) == (NeedMore, 0)
  {
    var all := f.Bytes();
    CompleteAt(f, all, text);
    OnlyNeedMore(all, k, text);
  }

  lemma OnlyNeedMore(all: seq<byte>, k: nat, text: Decoder)
    requires k < |all| && Parse(all, text).1 == |all|
    ensures Parse(all[..k], text) == (NeedMore, 0)
  {
    var part := all[..k];
    assert all == part + all[k..];
    if Parse(part, text).0 != NeedMore {
      Stable(part, all[k..], text);
    }
    hide Locate;
    hide HandshakeResult;
    hide IsPlainHttp;
  }

  /**
   A server_name extension at any place in an ordinary extension list: the first one is
   the one that is read, whatever the later extensions are.
   */
  lemma OrdinaryList(w: nat, es: seq<Entry>, i: nat)
    requires forall e | e in es :: |e.tag| == w && |e.body| < 65536
    requires i < |es| && IsZero(es[i].tag) && forall j | 0 <= j < i :: !IsZero(es[j].tag)
    ensures FirstZero(w, Entries(es)) == Some(es[i].body)
  {
    EntriesSplit(es, i);
    assert es[i..][0] == es[i] && es[i..][1..] == es[i + 1..];
    assert es[i].tag == Zeros(w);
    FirstZeroFinds(w, es[..i], es[i].body, Entries(es[i + 1..]));
  }

  lemma NoEntries()
    ensures Entries([]) == []
  {
  }

  lemma EntriesCons(es: seq<Entry>)
    ensures es != [] ==> Entries(es) == es[0].tag + (Vec16(es[0].body) + Entries(es[1..]))
  {
  }

  lemma {:induction false} EntriesSplit(es: seq<Entry>, i: nat)
    requires i <= |es|
    ensures Entries(es) == Entries(es[..i]) + Entries(es[i..])
  {
    hide Vec16, Entries;
    if i == 0 {
      assert es[0..] == es;
      NoEntries();
    } else {
      var front := es[..i];
      EntriesSplit(es[1..], i - 1);
      assert front[1..] == es[1..][..i - 1] && front[0] == es[0] && es[i..] == es[1..][i - 1..];
      EntriesCons(es);
      EntriesCons(front);
    }
  }
}
