/**
 Reading a TLS client until its ClientHello is complete, in whatever pieces the network
 delivers it, and splitting what was read into the flight and the bytes behind it.
 */
module TlsExtract {
  import opened Bytes
  import opened Sni
  import SniGrammar

  const BUFFER_SIZE: nat := 16 * 1024

  datatype Error = ClosedEarly | TooLarge | NoSni | NonTls

  datatype Extracted =
    | Routed(host: string, flight: seq<byte>, overflow: seq<byte>)
    | Failed(error: Error)

  /** Everything about an extraction that the client's bytes alone determine. */
  datatype Verdict = Route(host: string, flight: seq<byte>) | Refuse(error: Error)

  /** The verdict on a client that sends `stream` and then closes. */
  function VerdictOn(stream: seq<byte>, text: Decoder): Verdict {
    var view := if |stream| <= BUFFER_SIZE then stream else stream[..BUFFER_SIZE];
    var (result, n) := Parse(view, text);
    match result
    case Tls(h) => Route(h, view[..n])
    case NeedMore => Refuse(if |stream| >= BUFFER_SIZE then TooLarge else ClosedEarly)
    case TlsNoSni => Refuse(NoSni)
    case PlainHttp => Refuse(NonTls)
    case Unknown => Refuse(NonTls)
  }

  function VerdictOf(e: Extracted): Verdict {
    match e
    case Routed(h, flight, _) => Route(h, flight)
    case Failed(error) => Refuse(error)
  }

  /** A client connection: all it will ever send, and how much of it has been read. */
  class ClientStream {
    const sent: seq<byte>
    var consumed: nat

    ghost predicate Valid()
      reads this
    {
      consumed <= |sent|
    }

    ghost function Unread(): seq<byte>
      reads this
      requires Valid()
    {
      sent[consumed..]
    }

    constructor (sent: seq<byte>)
      ensures Valid() && Unread() == sent
    {
      this.sent := sent;
      consumed := 0;
    }

    /**
     Reads some bytes into `buf` from position `at`: any number the network likes, but
     none only at the end of the stream or with no room left.
     */
    method Read(buf: array<byte>, at: nat) returns (n: nat)
      requires Valid() && at <= buf.Length
      modifies this, buf
      ensures Valid() && old(consumed) <= consumed
      ensures n == consumed - old(consumed) <= buf.Length - at
      ensures n == 0 <==> at == buf.Length || old(consumed) == |sent|
      ensures buf[..at] == old(buf[..at])
      ensures buf[at..at + n] == old(Unread())[..n]
    {
      var room := buf.Length - at;
      var left := |sent| - consumed;
      var most := if room < left then room else left;
      if most == 0 {
        return 0;
      }
      n :| 1 <= n <= most;
      var start := consumed;
      for i := 0 to n
        invariant consumed == start
        invariant buf[..at] == old(buf[..at])
        invariant forall k | at <= k < at + i :: buf[k] == sent[start + k - at]
      {
        buf[at + i] := sent[start + i];
      }
      ghost var got := buf[at..at + n];
      assert forall k | 0 <= k < n :: got[k] == buf[at + k] == sent[start + k];
      assert got == sent[start..][..n];
      consumed := start + n;
      assert buf[at..at + n] == got;
    }
  }

  /** The result depends on the client's bytes and not on how they arrive. */
  method ExtractTlsInfo(client: ClientStream, text: Decoder) returns (e: Extracted)
    requires client.Valid()
    modifies client
    ensures client.Valid() && old(client.consumed) <= client.consumed <= old(client.consumed) + BUFFER_SIZE
    ensures VerdictOf(e) == VerdictOn(old(client.Unread()), text)
    ensures e.Routed? ==> e.flight + e.overflow == client.sent[old(client.consumed)..client.consumed]
  {
    hide Parse;
    hide VerdictOn;
    ghost var stream := client.Unread();
    var buf := new byte[BUFFER_SIZE];
    var total := 0;
    VerdictSettles(stream, 0, text);
    while true
      invariant client.Valid() && client.consumed == old(client.consumed) + total
      invariant total < BUFFER_SIZE == buf.Length && total <= |stream|
      invariant buf[..total] == stream[..total]
      invariant total == |stream| ==> VerdictOn(stream, text) == Refuse(ClosedEarly)
      decreases BUFFER_SIZE - total
    {
      var n := client.Read(buf, total);
      if n == 0 {
        return Failed(ClosedEarly);
      }
      assert client.Unread() == stream[total + n..];
      TakeMore(buf[..total + n], stream, total, n);
      total := total + n;
      var result, replay := ParseSniWithReplay(buf[..total], text);
      VerdictSettles(stream, total, text);
      match result {
        case Tls(host) =>
          e := Routed(host, buf[..replay], buf[replay..total]);
          CutInTwo(buf[..total], replay);
          assert e.flight == buf[..total][..replay] && e.overflow == buf[..total][replay..];
          assert client.sent[old(client.consumed)..client.consumed] == stream[..total];
          return;
        case NeedMore =>
          if total >= BUFFER_SIZE {
            return Failed(TooLarge);
          }
        case TlsNoSni =>
          return Failed(NoSni);
        case PlainHttp =>
          return Failed(NonTls);
        case Unknown =>
          return Failed(NonTls);
      }
    }
  }

  lemma TakeMore(got: seq<byte>, stream: seq<byte>, total: nat, n: nat)
    requires |got| == total + n <= |stream|
    requires got[..total] == stream[..total] && got[total..] == stream[total..][..n]
    ensures got == stream[..total + n]
  {
    assert got == got[..total] + got[total..];
    assert stream[..total + n] == stream[..total] + stream[total..][..n];
  }

  lemma CutInTwo(s: seq<byte>, k: nat)
    ensures k <= |s| ==> s[..k] + s[k..] == s
  {
  }

  /** A verdict reached on the first `total` bytes is the verdict on the whole stream. */
  lemma VerdictSettles(stream: seq<byte>, total: nat, text: Decoder)
    requires total <= |stream| && total <= BUFFER_SIZE
    ensures var (result, n) := Parse(stream[..total], text);
            match result
            case NeedMore =>
              && (total == BUFFER_SIZE ==> VerdictOn(stream, text) == Refuse(TooLarge))
              && (total == |stream| < BUFFER_SIZE ==> VerdictOn(stream, text) == Refuse(ClosedEarly))
            case Tls(h) => total > 0 && VerdictOn(stream, text) == Route(h, stream[..total][..n])
            case TlsNoSni => total > 0 && VerdictOn(stream, text) == Refuse(NoSni)
            case _ => total > 0 && VerdictOn(stream, text) == Refuse(NonTls)
  {
    var view := if |stream| <= BUFFER_SIZE then stream else stream[..BUFFER_SIZE];
    assert view == view[..total] + view[total..];
    assert view[..total] == stream[..total];
    assert total == |view| ==> view[..total] == view;
    var (result, n) := Parse(stream[..total], text);
    if result != NeedMore {
      SniGrammar.Stable(stream[..total], view[total..], text);
      assert total > 0;
      hide Parse;
      assert view[..n] == stream[..total][..n];
    }
  }

  /** The stream opens with a well-formed flight that fits the buffer and asks for the host. */
  ghost predicate Opens(stream: seq<byte>, text: Decoder, h: string, flight: seq<byte>) {
    |flight| <= 16384 &&
    exists f: SniGrammar.Flight :: SniGrammar.IsFlight(f, stream, text, h, |flight|) && f.Bytes() == flight
  }

  /** A client is routed for exactly the well-formed flights that fit the buffer. */
  lemma RoutesExactlyFlights(stream: seq<byte>, text: Decoder, h: string, flight: seq<byte>)
    ensures VerdictOn(stream, text) == Route(h, flight) <==> Opens(stream, text, h, flight)
  {
    hide Parse;
    hide SniGrammar.Flight.Bytes;
    hide SniGrammar.Flight.Ok;
    var view := if |stream| <= BUFFER_SIZE then stream else stream[..BUFFER_SIZE];
    if VerdictOn(stream, text) == Route(h, flight) {
      var f := SniGrammar.Sound(view, text);
      assert SniGrammar.IsFlight(f, stream, text, h, |flight|);
    }
    forall f: SniGrammar.Flight | SniGrammar.IsFlight(f, stream, text, h, |flight|) && f.Bytes() == flight && |flight| <= BUFFER_SIZE
      ensures VerdictOn(stream, text) == Route(h, flight)
    {
      SniGrammar.CompleteAt(f, view, text);
    }
  }
}
