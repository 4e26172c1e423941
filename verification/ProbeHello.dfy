/** The ClientHello the health probe sends, and what the relay's own parser makes of it. */
module ProbeHello {
  import opened Wrappers
  import opened Bytes
  import opened Sni
  import opened SniGrammar

  /** The longest host name whose record length still fits 16 bits. */
  const LONGEST_HOST: nat := 65475

  const SUITES: seq<byte> := [0x13, 0x01, 0xc0, 0x2f, 0x00, 0x2f]

  /** The low 24 bits of `n`, most significant octet first. */
  function EncodeU24(n: nat): (e: seq<byte>)
    ensures |e| == 3
    ensures n < 0x100_0000 ==> 65536 * (e[0] as int) + 256 * (e[1] as int) + e[2] as int == n
  {
    [(n / 65536) % 256, (n / 256) % 256, n % 256]
  }

  /** The flight the probe means to send: one record, one extension, one name. */
  function ProbeFlight(host: seq<byte>): Flight {
    var names := Names([], host, [], []);
    var hello := Hello([0, 0, 0, 3, 3] + Zeros(32), [], SUITES, [0], [], names, [], []);
    var bodyLen := |hello.Message()| - 4;
    Flight([], [3, 1], hello.(preamble := EncodeU24(bodyLen) + [3, 3] + Zeros(32)))
  }

  method BuildMinimalTlsClientHello(host: seq<byte>) returns (record: seq<byte>)
    ensures record == ProbeFlight(host).Bytes()
  {
    hide EncodeU16;
    hide EncodeU24;
    var extensions: seq<byte> := [0x00, 0x00];
    extensions := extensions + EncodeU16(5 + |host|);
    extensions := extensions + EncodeU16(3 + |host|);
    extensions := extensions + [0x00];
    extensions := extensions + EncodeU16(|host|);
    extensions := extensions + host;
    BlockIs(host, extensions);

    var body: seq<byte> := [0x03, 0x03];
    body := body + seq(32, _ => 0);
    body := body + [0];
    var ciphers := SUITES;
    body := body + EncodeU16(|ciphers|);
    body := body + ciphers;
    body := body + [1];
    body := body + [0];
    body := body + EncodeU16(|extensions|);
    body := body + extensions;

    var handshake: seq<byte> := [0x01];
    var hsLen := |body|;
    handshake := handshake + EncodeU24(hsLen);
    handshake := handshake + body;

    record := [0x16];
    record := record + [0x03, 0x01];
    record := record + EncodeU16(|handshake|);
    record := record + handshake;
    MessageIs(host, extensions, body);
  }

  lemma BlockIs(host: seq<byte>, extensions: seq<byte>)
    ensures extensions == [0, 0] + EncodeU16(5 + |host|) + EncodeU16(3 + |host|) + [0] + EncodeU16(|host|) + host ==>
      extensions == ProbeFlight(host).hello.Block()
  {
  }

  lemma MessageIs(host: seq<byte>, extensions: seq<byte>, body: seq<byte>)
    ensures extensions == ProbeFlight(host).hello.Block() && body == [3, 3] + Zeros(32) + [0] + EncodeU16(|SUITES|) + SUITES + [1] + [0] + EncodeU16(|extensions|) + extensions ==>
      ProbeFlight(host).hello.Message() == [1] + EncodeU24(|body|) + body
  {
  }

  /** The four nested length fields all fit, so none is truncated, up to the longest host. */
  lemma FieldsFit(host: seq<byte>)
    ensures ProbeFlight(host).Ok() <==> |host| <= LONGEST_HOST
    ensures |ProbeFlight(host).Bytes()| == |host| + 65
  {
  }

  /** The message says that it is a ClientHello and how long it is, as far as 24 bits tell. */
  lemma MessageHeader(host: seq<byte>)
    ensures var m := ProbeFlight(host).hello.Message();
            && |m| >= 4 && m[0] == 0x01 && ProbeFlight(host).Bytes()[5..] == m
            && (|m| < 0x100_0000 ==> 65536 * (m[1] as int) + 256 * (m[2] as int) + m[3] as int == |m| - 4)
  {
    hide Vec16, Vec8, EncodeU24;
    var f := ProbeFlight(host);
    RecordReads(0x16, Record(f.version, f.hello.Message()));
    assert f.Bytes() == f.HelloRecord();
  }

  /**
   The relay's parser reads back the probed host name and takes the whole record for the
   flight, exactly when the host name is short enough for its length fields.
   */
  lemma RoundTrip(host: seq<byte>, text: Decoder, h: string)
    requires text(host) == Some(h)
    ensures var record := ProbeFlight(host).Bytes();
            Parse(record, text) == (Tls(h), |record|) <==> |host| <= LONGEST_HOST
  {
    var f := ProbeFlight(host);
    FieldsFit(host);
    if |host| <= LONGEST_HOST {
      CompleteAt(f, f.Bytes(), text);
    } else {
      TruncatedLength(host, text);
    }
  }

  /** Past the longest host the record length wraps, and the flight ends too early. */
  lemma TruncatedLength(host: seq<byte>, text: Decoder)
    requires |host| > LONGEST_HOST
    ensures var record := ProbeFlight(host).Bytes(); Parse(record, text).1 < |record|
  {
  }
}
