/**
 The SOCKS5 client side (RFC 1928, with the username/password method of RFC 1929): what
 the client writes, what it reads, and a server's view of both.
 */
module Socks5 {
  import opened Wrappers
  import opened Bytes

  const NO_AUTH: byte := 0x00
  const USER_PASS: byte := 0x02

  /** The host to reach, after the attempt to read it as an IP address. */
  datatype Target =
    | V4(octets: seq<byte>)
    | V6(octets: seq<byte>)
    | Name(host: seq<byte>)
  {
    predicate Ok() {
      (V4? ==> |octets| == 4) && (V6? ==> |octets| == 16)
    }
  }

  datatype Credentials = Credentials(user: Option<seq<byte>>, pass: Option<seq<byte>>) {
    function User(): seq<byte> {
      if user.Some? then user.value else []
    }

    function Pass(): seq<byte> {
      if pass.Some? then pass.value else []
    }
  }

  datatype Error =
    | Closed
    | BadVersion
    | AuthFailed
    | NoAcceptableMethod
    | UnsupportedMethod
    | HostTooLong
    | ConnectFailed(status: byte)
    | UnknownAddressType

  datatype Outcome = Established | Refused(error: Error)

  // -------------------------------------------------------------- what is written

  function PortBytes(port: nat): seq<byte> {
    EncodeU16(port)
  }

  function Greeting(c: Credentials): seq<byte> {
    [0x05, 0x01, if c.user.Some? then USER_PASS else NO_AUTH]
  }

  /** Both lengths are one octet, so a longer name or password is cut down modulo 256. */
  function AuthRequest(c: Credentials): seq<byte> {
    [0x01] + (Vec8(c.User()) + Vec8(c.Pass()))
  }

  function ConnectRequest(t: Target, port: nat): seq<byte> {
    [0x05, 0x01, 0x00] +
    match t
    case V4(octets) => [0x01] + (octets + PortBytes(port))
    case V6(octets) => [0x04] + (octets + PortBytes(port))
    case Name(host) => [0x03] + (Vec8(host) + PortBytes(port))
  }

  // ------------------------------------------------------------------ what is read

  /** The address a server reports back, with its port. */
  datatype Bound =
    | BoundV4(octets: seq<byte>)
    | BoundV6(octets: seq<byte>)
    | BoundName(host: seq<byte>, port: seq<byte>)
  {
    predicate Ok() {
      match this
      case BoundV4(o) => |o| == 6
      case BoundV6(o) => |o| == 18
      case BoundName(h, p) => |h| < 256 && |p| == 2
    }

    function Bytes(): (b: seq<byte>)
      ensures |b| >= 1
    {
      match this
      case BoundV4(o) => [0x01] + o
      case BoundV6(o) => [0x04] + o
      case BoundName(h, p) => [0x03] + (Vec8(h) + p)
    }
  }

  /** The replies of a server that lets the tunnel through. */
  datatype Replies = Replies(auth: Option<byte>, reserved: byte, bound: Bound) {
    function MethodReply(): seq<byte> {
      [0x05, if auth.Some? then 0x02 else 0x00]
    }

    function AuthReply(): seq<byte> {
      if auth.Some? then [auth.value, 0x00] else []
    }

    function ConnectReply(): seq<byte> {
      [0x05, 0x00, reserved] + bound.Bytes()
    }

    function Bytes(): seq<byte> {
      MethodReply() + (AuthReply() + ConnectReply())
    }
  }

  /** All that the client writes when the server replies with `r`. */
  function Requests(r: Replies, c: Credentials, t: Target, port: nat): seq<byte> {
    Greeting(c) + ((if r.auth.Some? then AuthRequest(c) else []) + ConnectRequest(t, port))
  }

  predicate HostFits(t: Target) {
    t.Name? ==> |t.host| <= 255
  }

  // -------------------------------------------------------- the conversation

  /** How a conversation ends, how much of the server's stream it reads, and what it writes. */
  datatype Session = Session(outcome: Outcome, read: nat, written: seq<byte>)

  /** The conversation with a server that sends `s` and then closes. */
  function Converse(s: seq<byte>, c: Credentials, t: Target, port: nat): (r: Session)
    ensures r.read <= |s|
  {
    var w := Greeting(c);
    if |s| < 2 then Session(Refused(Closed), |s|, w)
    else if s[0] != 0x05 then Session(Refused(BadVersion), 2, w)
    else if s[1] == NO_AUTH then AskConnect(s, 2, w, t, port)
    else if s[1] == USER_PASS then
      if |s| < 4 then Session(Refused(Closed), |s|, w + AuthRequest(c))
      else if s[3] != 0x00 then Session(Refused(AuthFailed), 4, w + AuthRequest(c))
      else AskConnect(s, 4, w + AuthRequest(c), t, port)
    else Session(Refused(if s[1] == 0xFF then NoAcceptableMethod else UnsupportedMethod), 2, w)
  }

  function AskConnect(s: seq<byte>, at: nat, w: seq<byte>, t: Target, port: nat): (r: Session)
    requires at <= |s|
    ensures r.read <= |s|
  {
    if !HostFits(t) then Session(Refused(HostTooLong), at, w)
    else
      var w := w + ConnectRequest(t, port);
      if |s| < at + 4 then Session(Refused(Closed), |s|, w)
      else if s[at] != 0x05 then Session(Refused(BadVersion), at + 4, w)
      else if s[at + 1] != 0x00 then Session(Refused(ConnectFailed(s[at + 1])), at + 4, w)
      else
        var (outcome, n) := SkipAddress(s[at + 4..], s[at + 3]);
        Session(outcome, at + 4 + n, w)
  }

  function SkipAddress(s: seq<byte>, atyp: byte): (r: (Outcome, nat))
    ensures r.1 <= |s|
  {
    if atyp == 0x01 then Skip(s, 6)
    else if atyp == 0x04 then Skip(s, 18)
    else if atyp == 0x03 then
      if |s| < 1 then (Refused(Closed), 0) else
      var n: nat := s[0];
      Skip(s, n + 3)
    else (Refused(UnknownAddressType), 0)
  }

  function Skip(s: seq<byte>, n: nat): (Outcome, nat) {
    if |s| < n then (Refused(Closed), |s|) else (Established, n)
  }

  // ---------------------------------------------------------------- the client

  /** The connection to the proxy: all the server will send, what was read, what was written. */
  class ProxyStream {
    const incoming: seq<byte>
    var pos: nat
    var written: seq<byte>

    ghost predicate Valid()
      reads this
    {
      pos <= |incoming|
    }

    constructor (incoming: seq<byte>)
      ensures Valid() && this.incoming == incoming && pos == 0 && written == []
    {
      this.incoming := incoming;
      pos, written := 0, [];
    }

    method WriteAll(bytes: seq<byte>)
      modifies this`written
      ensures written == old(written) + bytes
    {
      written := written + bytes;
    }

    /** Exactly `n` bytes, or `None` when the server closes before that. */
    method ReadExact(n: nat) returns (r: Option<seq<byte>>)
      requires Valid()
      modifies this`pos
      ensures Valid()
      ensures if old(pos) + n <= |incoming|
              then pos == old(pos) + n && r == Some(incoming[old(pos)..pos])
              else pos == |incoming| && r == None
    {
      if pos + n <= |incoming| {
        r := Some(incoming[pos..pos + n]);
        pos := pos + n;
      } else {
        pos := |incoming|;
        r := None;
      }
    }
  }

  method BuildSocks5ConnectRequest(t: Target, port: nat) returns (r: Option<seq<byte>>)
    requires t.Ok() && port < 65536
    ensures r == if HostFits(t) then Some(ConnectRequest(t, port)) else None
  {
    var portBytes: seq<byte> := [port / 256, port % 256];
    match t {
      case V4(octets) =>
        var req: seq<byte> := [0x05, 0x01, 0x00];
        req := req + [0x01];
        req := req + octets;
        req := req + portBytes;
        assert req == ConnectRequest(t, port);
        return Some(req);
      case V6(octets) =>
        var req: seq<byte> := [0x05, 0x01, 0x00];
        req := req + [0x04];
        req := req + octets;
        req := req + portBytes;
        assert req == ConnectRequest(t, port);
        return Some(req);
      case Name(host) =>
        if |host| > 255 {
          return None;
        }
        var req: seq<byte> := [0x05, 0x01, 0x00, 0x03, |host|];
        req := req + host;
        req := req + portBytes;
        assert req == ConnectRequest(t, port);
        return Some(req);
    }
  }

  method Socks5Connect(stream: ProxyStream, c: Credentials, t: Target, port: nat) returns (outcome: Outcome)
    requires stream.Valid() && stream.pos == 0 && stream.written == []
    requires t.Ok() && port < 65536
    modifies stream
    ensures stream.Valid()
    ensures Session(outcome, stream.pos, stream.written) == Converse(stream.incoming, c, t, port)
  {
    hide AskConnect;
    hide AuthRequest;
    stream.WriteAll([0x05, 0x01, if c.user.Some? then USER_PASS else NO_AUTH]);
    assert stream.written == Greeting(c);
    var resp := stream.ReadExact(2);
    if resp == None { return Refused(Closed); }
    if resp.value[0] != 0x05 { return Refused(BadVersion); }
    if resp.value[1] == NO_AUTH {
    } else if resp.value[1] == USER_PASS {
      var user := if c.user.Some? then c.user.value else [];
      var pass := if c.pass.Some? then c.pass.value else [];
      var authReq: seq<byte> := [0x01];
      authReq := authReq + [|user| % 256];
      authReq := authReq + user;
      authReq := authReq + [|pass| % 256];
      authReq := authReq + pass;
      AuthRequestIs(c, authReq);
      stream.WriteAll(authReq);
      var authResp := stream.ReadExact(2);
      if authResp == None { return Refused(Closed); }
      if authResp.value[1] != 0x00 { return Refused(AuthFailed); }
    } else if resp.value[1] == 0xFF {
      return Refused(NoAcceptableMethod);
    } else {
      return Refused(UnsupportedMethod);
    }
    assert Converse(stream.incoming, c, t, port) == AskConnect(stream.incoming, stream.pos, stream.written, t, port);
    outcome := RequestTunnel(stream, t, port);
  }

  lemma AuthRequestIs(c: Credentials, w: seq<byte>)
    ensures w == [0x01] + [|c.User()| % 256] + c.User() + [|c.Pass()| % 256] + c.Pass() ==>
      w == AuthRequest(c)
  {
  }

  /** The part of `socks5_connect` behind the authentication. */
  method RequestTunnel(stream: ProxyStream, t: Target, port: nat) returns (outcome: Outcome)
    requires stream.Valid() && t.Ok() && port < 65536
    modifies stream
    ensures stream.Valid()
    ensures Session(outcome, stream.pos, stream.written) ==
            AskConnect(stream.incoming, old(stream.pos), old(stream.written), t, port)
  {
    hide ConnectRequest;
    var req := BuildSocks5ConnectRequest(t, port);
    if req == None { return Refused(HostTooLong); }
    stream.WriteAll(req.value);
    var hdr := stream.ReadExact(4);
    if hdr == None { return Refused(Closed); }
    if hdr.value[0] != 0x05 { return Refused(BadVersion); }
    if hdr.value[1] != 0x00 { return Refused(ConnectFailed(hdr.value[1])); }
    outcome := SkipSocks5Addr(stream, hdr.value[3]);
  }

  method SkipSocks5Addr(stream: ProxyStream, atyp: byte) returns (outcome: Outcome)
    requires stream.Valid()
    modifies stream`pos
    ensures stream.Valid()
    ensures (outcome, stream.pos) ==
            (var (o, n) := SkipAddress(stream.incoming[old(stream.pos)..], atyp); (o, old(stream.pos) + n))
  {
    if atyp == 0x01 {
      var buf := stream.ReadExact(6);
      return if buf == None then Refused(Closed) else Established;
    } else if atyp == 0x03 {
      var len := stream.ReadExact(1);
      if len == None { return Refused(Closed); }
      var n: nat := len.value[0];
      var buf := stream.ReadExact(n + 2);
      return if buf == None then Refused(Closed) else Established;
    } else if atyp == 0x04 {
      var buf := stream.ReadExact(18);
      return if buf == None then Refused(Closed) else Established;
    } else {
      return Refused(UnknownAddressType);
    }
  }

  // ------------------------------------------------------------ main theorems

  ghost predicate Accepting(r: Replies, s: seq<byte>, t: Target) {
    r.bound.Ok() && r.Bytes() <= s && HostFits(t)
  }

  /**
   A tunnel is established exactly when the server's stream starts with well-formed
   accepting replies. The client has then read those replies and nothing of the tunnel.
   */
  lemma EstablishedExactly(s: seq<byte>, c: Credentials, t: Target, port: nat)
    ensures Converse(s, c, t, port).outcome == Established <==> exists r: Replies :: Accepting(r, s, t)
    ensures forall r: Replies | Accepting(r, s, t) ::
              Converse(s, c, t, port) == Session(Established, |r.Bytes()|, Requests(r, c, t, port))
  {
    if Converse(s, c, t, port).outcome == Established {
      RepliesRead(s, c, t, port);
    }
    forall r: Replies | Accepting(r, s, t)
      ensures Converse(s, c, t, port) == Session(Established, |r.Bytes()|, Requests(r, c, t, port))
    {
      RepliesSuffice(r, s, c, t, port);
    }
  }

  lemma RepliesRead(s: seq<byte>, c: Credentials, t: Target, port: nat)
    ensures Converse(s, c, t, port).outcome == Established ==> exists r: Replies :: Accepting(r, s, t)
  {
    hide Converse, SkipAddress, Bound.Bytes, Bound.Ok, Replies.Bytes, HostFits;
    var at := ReadsTo(s, c, t, port);
    if Converse(s, c, t, port).outcome == Established {
      BoundRead(s[at + 4..], s[at + 3]);
      var bound: Bound :| bound.Ok() && bound.Bytes() <= [s[at + 3]] + s[at + 4..];
      var r := Replies(if at == 2 then None else Some(s[2]), s[at + 2], bound);
      RepliesAre(s, at, r);
      assert Accepting(r, s, t);
    }
  }

  /** Where the CONNECT reply of an established tunnel starts, and what the bytes up to its address are. */
  lemma ReadsTo(s: seq<byte>, c: Credentials, t: Target, port: nat) returns (at: nat)
    ensures at == 2 || at == 4
    ensures Converse(s, c, t, port).outcome == Established ==>
      && |s| >= at + 4 && HostFits(t) && SkipAddress(s[at + 4..], s[at + 3]).0 == Established
      && s[0] == 0x05 && s[1] == (if at == 2 then 0x00 else 0x02) && (at == 4 ==> s[3] == 0x00)
      && s[at] == 0x05 && s[at + 1] == 0x00
  {
    hide SkipAddress, ConnectRequest, AuthRequest, Greeting, HostFits;
    at := if |s| >= 2 && s[1] == NO_AUTH then 2 else 4;
  }

  lemma RepliesAre(s: seq<byte>, at: nat, r: Replies)
    requires (at == 2 || at == 4) && |s| >= at + 4
    requires s[0] == 0x05 && s[1] == (if at == 2 then 0x00 else 0x02) && (at == 4 ==> s[3] == 0x00)
    requires s[at] == 0x05 && s[at + 1] == 0x00
    requires r.auth == (if at == 2 then None else Some(s[2])) && r.reserved == s[at + 2]
    requires r.bound.Bytes() <= [s[at + 3]] + s[at + 4..]
    ensures r.Bytes() <= s
  {
    hide Bound.Bytes;
    var head := r.MethodReply() + r.AuthReply() + [0x05, 0x00, s[at + 2]];
    var tail := [s[at + 3]] + s[at + 4..];
    assert head == s[..at + 3] && tail == s[at + 3..];
    PrefixAfter(head, r.bound.Bytes(), tail);
    assert r.Bytes() == head + r.bound.Bytes() && s == head + tail;
  }

  lemma PrefixAfter(head: seq<byte>, b: seq<byte>, tail: seq<byte>)
    requires b <= tail
    ensures head + b <= head + tail
  {
    assert head + tail == (head + b) + tail[|b|..];
  }

  lemma BoundRead(s: seq<byte>, atyp: byte)
    ensures SkipAddress(s, atyp).0 == Established ==> exists b: Bound :: b.Ok() && b.Bytes() <= [atyp] + s
  {
    if SkipAddress(s, atyp).0 == Established {
      var b: Bound;
      if atyp == 0x01 {
        b := BoundV4(s[..6]);
      } else if atyp == 0x04 {
        b := BoundV6(s[..18]);
      } else {
        var n: nat := s[0];
        b := BoundName(s[1..n + 1], s[n + 1..n + 3]);
        assert b.Bytes() == [0x03] + s[..n + 3];
      }
      assert b.Ok() && b.Bytes() <= [atyp] + s;
    }
  }

  lemma RepliesSuffice(r: Replies, s: seq<byte>, c: Credentials, t: Target, port: nat)
    requires Accepting(r, s, t)
    ensures Converse(s, c, t, port) == Session(Established, |r.Bytes()|, Requests(r, c, t, port))
  {
    hide ConnectRequest;
    hide AuthRequest;
    hide SkipAddress;
    hide Bound.Bytes;
    hide Bound.Ok;
    var at := if r.auth.Some? then 4 else 2;
    var n := |r.bound.Bytes()|;
    var b := r.Bytes();
    assert b[..2] == r.MethodReply() && b[2..at] == r.AuthReply();
    assert b[at..at + 3] == [0x05, 0x00, r.reserved] && b[at + 3..] == r.bound.Bytes();
    assert s[at + 3..][..n] == r.bound.Bytes();
    assert s[at + 3..][1..] == s[at + 4..];
    BoundSuffices(r.bound, s[at + 3..]);
    hide Replies.Bytes;
    assert Greeting(c) + ((if r.auth.Some? then AuthRequest(c) else []) + ConnectRequest(t, port))
        == Greeting(c) + (if r.auth.Some? then AuthRequest(c) else []) + ConnectRequest(t, port);
  }

  lemma BoundSuffices(b: Bound, s: seq<byte>)
    requires b.Ok() && b.Bytes() <= s
    ensures SkipAddress(s[1..], s[0]) == (Established, |b.Bytes()| - 1)
  {
  }

  /** What a server makes of the client's bytes. */
  datatype Request = Request(offered: byte, auth: Option<(seq<byte>, seq<byte>)>, target: Target, port: nat)

  function ServerReads(w: seq<byte>, authenticated: bool): Option<Request> {
    if |w| < 3 || w[0] != 0x05 || w[1] != 0x01 then None
    else if !authenticated then ServerReadsConnect(w[3..], w[2], None)
    else if |w| < 4 || w[3] != 0x01 then None
    else match TakeVec8(w[4..])
      case Short => None
      case Cut(user, rest) => match TakeVec8(rest)
        case Short => None
        case Cut(pass, rest) => ServerReadsConnect(rest, w[2], Some((user, pass)))
  }

  function ServerReadsConnect(w: seq<byte>, offered: byte, auth: Option<(seq<byte>, seq<byte>)>): (r: Option<Request>)
    ensures r.Some? ==> r.value.auth == auth
  {
    if |w| < 4 || w[0] != 0x05 || w[1] != 0x01 || w[2] != 0x00 then None
    else if w[3] == 0x01 && |w| == 10 then Some(Request(offered, auth, V4(w[4..8]), U16(w[8], w[9])))
    else if w[3] == 0x04 && |w| == 22 then Some(Request(offered, auth, V6(w[4..20]), U16(w[20], w[21])))
    else if w[3] == 0x03 then
      match TakeVec8(w[4..])
      case Short => None
      case Cut(host, rest) => if |rest| == 2 then Some(Request(offered, auth, Name(host), U16(rest[0], rest[1]))) else None
    else None
  }

  lemma ServerReadsTarget(t: Target, port: nat, offered: byte, auth: Option<(seq<byte>, seq<byte>)>)
    requires t.Ok() && HostFits(t) && port < 65536
    ensures ServerReadsConnect(ConnectRequest(t, port), offered, auth) == Some(Request(offered, auth, t, port))
  {
    hide TakeVec8, Vec8;
    var w := ConnectRequest(t, port);
    match t {
      case V4(octets) =>
        assert w[4..8] == octets && w[8..10] == PortBytes(port);
      case V6(octets) =>
        assert w[4..20] == octets && w[20..22] == PortBytes(port);
      case Name(host) =>
        assert w[4..] == Vec8(host) + PortBytes(port);
        TakeVec8Reads(host, PortBytes(port));
    }
  }

  /**
   A server is offered the one method that the credentials call for, and decodes the host,
   port and credentials the client was given, exactly when the credentials it asked for fit
   their one-octet lengths.
   */
  lemma ServerUnderstands(r: Replies, c: Credentials, t: Target, port: nat)
    requires t.Ok() && HostFits(t) && port < 65536
    ensures ServerReads(Requests(r, c, t, port), r.auth.Some?)
              == Some(Request(if c.user.Some? then 0x02 else 0x00, if r.auth.Some? then Some((c.User(), c.Pass())) else None, t, port))
            <==> (r.auth.Some? ==> |c.User()| <= 255 && |c.Pass()| <= 255)
  {
    hide ConnectRequest, ServerReadsConnect, ServerReads, TakeVec8, Vec8;
    var w := Requests(r, c, t, port);
    var req := ConnectRequest(t, port);
    var offered: byte := if c.user.Some? then 0x02 else 0x00;
    if r.auth.None? {
      assert w == [0x05, 0x01, offered] + req;
      ReadsWithout(w, req);
      ServerReadsTarget(t, port, offered, None);
    } else {
      ReadsShort(w);
      if |c.User()| <= 255 && |c.Pass()| <= 255 {
        Regrouped([0x05, 0x01, offered], 0x01, Vec8(c.User()), Vec8(c.Pass()), req);
        ReadsWith(w, c.User(), c.Pass(), req);
        ServerReadsTarget(t, port, offered, Some((c.User(), c.Pass())));
      }
    }
  }

  lemma Regrouped(a: seq<byte>, b: byte, u: seq<byte>, p: seq<byte>, q: seq<byte>)
    ensures var w := a + (([b] + (u + p)) + q); w[|a|] == b && w[|a| + 1..] == u + (p + q)
  {
    assert a + (([b] + (u + p)) + q) == a + [b] + (u + (p + q));
  }

  lemma ReadsWithout(w: seq<byte>, req: seq<byte>)
    ensures |w| >= 3 && w[0] == 0x05 && w[1] == 0x01 && w[3..] == req ==>
      ServerReads(w, false) == ServerReadsConnect(req, w[2], None)
  {
  }

  lemma ReadsWith(w: seq<byte>, user: seq<byte>, pass: seq<byte>, req: seq<byte>)
    requires |user| <= 255 && |pass| <= 255
    requires |w| >= 4 && w[0] == 0x05 && w[1] == 0x01 && w[3] == 0x01 && w[4..] == Vec8(user) + (Vec8(pass) + req)
    ensures ServerReads(w, true) == ServerReadsConnect(req, w[2], Some((user, pass)))
  {
    hide TakeVec8, Vec8, ServerReadsConnect;
    TakeVec8Reads(user, Vec8(pass) + req);
    TakeVec8Reads(pass, req);
  }

  lemma ReadsShort(w: seq<byte>)
    ensures var r := ServerReads(w, true);
            r.Some? ==> r.value.auth.Some? && |r.value.auth.value.0| <= 255 && |r.value.auth.value.1| <= 255
  {
    hide TakeVec8, ServerReadsConnect;
  }

  /** A server's choice (section 3 of RFC 1928): a method it accepts among those offered, or 0xFF. */
  ghost predicate Picks(greeting: seq<byte>, accepted: set<byte>, m: byte) {
    && |greeting| >= 2 && greeting[0] == 0x05 && |greeting| >= 2 + greeting[1] as int
    && var offered := greeting[2..2 + greeting[1] as int];
       if exists a :: a in accepted && a in offered then m in accepted && m in offered else m == 0xFF
  }

  /**
   With a server that chooses among the methods offered: a client with credentials gets
   through with a server that accepts 0x02, which reads its credentials, and a client without
   with one that accepts 0x00; with any other server it gives up, having asked for nothing.
   */
  lemma Negotiates(s: seq<byte>, c: Credentials, t: Target, port: nat, accepted: set<byte>)
    requires t.Ok() && port < 65536 && |s| >= 2 && s[0] == 0x05
    requires Picks(Converse(s, c, t, port).written, accepted, s[1])
    ensures var session := Converse(s, c, t, port);
            match c.user
            case None =>
              if 0x00 in accepted
              then session.outcome == Established ==> ServerReads(session.written, false) == Some(Request(0x00, None, t, port))
              else session == Session(Refused(NoAcceptableMethod), 2, [0x05, 0x01, 0x00])
            case Some(user) =>
              var pass := if c.pass.Some? then c.pass.value else [];
              if 0x02 in accepted
              then session.outcome == Established && |user| <= 255 && |pass| <= 255 ==>
                   ServerReads(session.written, true) == Some(Request(0x02, Some((user, pass)), t, port))
              else session == Session(Refused(NoAcceptableMethod), 2, [0x05, 0x01, 0x02])
  {
    hide AskConnect, AuthRequest, ConnectRequest, ServerReads, Replies.Bytes;
    var session := Converse(s, c, t, port);
    var want: byte := if c.user.Some? then 0x02 else 0x00;
    StartsWithGreeting(s, c, t, port);
    assert session.written[2..3] == [want];
    assert s[1] == if want in accepted then want else 0xFF;
    if session.outcome == Established {
      RepliesRead(s, c, t, port);
      var r: Replies :| Accepting(r, s, t);
      RepliesSuffice(r, s, c, t, port);
      MethodOf(r, s);
      ServerUnderstands(r, c, t, port);
    }
  }

  lemma MethodOf(r: Replies, s: seq<byte>)
    requires r.Bytes() <= s
    ensures |s| >= 2 && s[1] == if r.auth.Some? then 0x02 else 0x00
  {
    hide Bound.Bytes;
    assert r.Bytes()[..2] == r.MethodReply();
  }

  lemma StartsWithGreeting(s: seq<byte>, c: Credentials, t: Target, port: nat)
    ensures [0x05, 0x01, if c.user.Some? then 0x02 else 0x00] <= Converse(s, c, t, port).written
  {
    hide AuthRequest, ConnectRequest, SkipAddress;
  }

  // ----------------------------------------------------------------- refusals

  /** The server let the client ask: without credentials, or with credentials it took. */
  ghost predicate Through(s: seq<byte>, at: nat) {
    || (at == 2 && |s| >= 2 && s[0] == 0x05 && s[1] == 0x00)
    || (at == 4 && |s| >= 4 && s[0] == 0x05 && s[1] == 0x02 && s[3] == 0x00)
  }

  /** The client asked for its target and the four octets of the reply's header follow at `at`. */
  ghost predicate Answered(s: seq<byte>, t: Target, at: nat) {
    Through(s, at) && (t.Name? ==> |t.host| <= 255) && |s| >= at + 4
  }

  /** How long a bound address of each type is with its port; one octet says so for a name. */
  ghost predicate Missing(s: seq<byte>, at: nat)
    requires |s| >= at + 4
  {
    || (s[at + 3] == 0x01 && |s| < at + 10)
    || (s[at + 3] == 0x04 && |s| < at + 22)
    || (s[at + 3] == 0x03 && (|s| < at + 5 || |s| < at + 7 + s[at + 4] as int))
  }

  /** For which streams of the server each refusal comes. */
  lemma RefusalsExactly(s: seq<byte>, c: Credentials, t: Target, port: nat, status: byte)
    ensures var o := Converse(s, c, t, port).outcome;
      && (o == Refused(NoAcceptableMethod) <==> |s| >= 2 && s[0] == 0x05 && s[1] == 0xFF)
      && (o == Refused(UnsupportedMethod) <==> |s| >= 2 && s[0] == 0x05 && s[1] != 0x00 && s[1] != 0x02 && s[1] != 0xFF)
      && (o == Refused(AuthFailed) <==> |s| >= 4 && s[0] == 0x05 && s[1] == 0x02 && s[3] != 0x00)
      && (o == Refused(HostTooLong) <==> t.Name? && |t.host| > 255 && exists at: nat :: Through(s, at))
      && (o == Refused(BadVersion) <==> (|s| >= 2 && s[0] != 0x05) || exists at: nat :: Answered(s, t, at) && s[at] != 0x05)
      && (o == Refused(ConnectFailed(status)) <==>
            status != 0x00 && exists at: nat :: Answered(s, t, at) && s[at] == 0x05 && s[at + 1] == status)
  {
    hide Converse, Missing;
    WhereAsked(s, c, t, port);
  }

  /** For which streams the reply is cut short or names an address type that is not known. */
  lemma CutShortExactly(s: seq<byte>, c: Credentials, t: Target, port: nat)
    ensures var o := Converse(s, c, t, port).outcome;
      && (o == Refused(UnknownAddressType) <==>
            exists at: nat :: Answered(s, t, at) && s[at] == 0x05 && s[at + 1] == 0x00 && s[at + 3] !in {0x01, 0x03, 0x04})
      && (o == Refused(Closed) <==>
            || |s| < 2 || (|s| < 4 && s[0] == 0x05 && s[1] == 0x02)
            || (exists at: nat :: Through(s, at) && (t.Name? ==> |t.host| <= 255) && |s| < at + 4)
            || (exists at: nat :: Answered(s, t, at) && s[at] == 0x05 && s[at + 1] == 0x00 && Missing(s, at)))
  {
    hide Converse;
    WhereAsked(s, c, t, port);
  }

  /** The password goes only to a server that asks for it, the target only to one that lets the client through. */
  lemma WrittenExactly(s: seq<byte>, c: Credentials, t: Target, port: nat)
    ensures Converse(s, c, t, port).written ==
      [0x05, 0x01, if c.user.Some? then 0x02 else 0x00]
      + (if [0x05, 0x02] <= s then AuthRequest(c) else [])
      + (if (t.Name? ==> |t.host| <= 255) && exists at: nat :: Through(s, at) then ConnectRequest(t, port) else [])
  {
    hide AuthRequest, ConnectRequest, SkipAddress;
    assert (exists at: nat :: Through(s, at)) <==> Through(s, 2) || Through(s, 4);
  }

  lemma WhereAsked(s: seq<byte>, c: Credentials, t: Target, port: nat)
    ensures var o := Converse(s, c, t, port).outcome;
            if !Through(s, 2) && !Through(s, 4) then o == NotAsked(s) else o == Asked(s, if s[1] == 0x00 then 2 else 4, t)
  {
    hide AskConnect, Greeting, AuthRequest;
    if Through(s, 2) {
      AskedAt(s, 2, Greeting(c), t, port);
    } else if Through(s, 4) {
      AskedAt(s, 4, Greeting(c) + AuthRequest(c), t, port);
    }
  }

  /** What comes of a greeting that leads no further. */
  ghost function NotAsked(s: seq<byte>): Outcome {
    Refused(
      if |s| < 2 then Closed
      else if s[0] != 0x05 then BadVersion
      else if s[1] == 0x02 then if |s| < 4 then Closed else AuthFailed
      else if s[1] == 0xFF then NoAcceptableMethod
      else UnsupportedMethod)
  }

  /** What comes of a request whose answer starts at `at`. */
  ghost function Asked(s: seq<byte>, at: nat, t: Target): Outcome
  {
    if t.Name? && |t.host| > 255 then Refused(HostTooLong)
    else if |s| < at + 4 then Refused(Closed)
    else if s[at] != 0x05 then Refused(BadVersion)
    else if s[at + 1] != 0x00 then Refused(ConnectFailed(s[at + 1]))
    else if s[at + 3] !in {0x01, 0x03, 0x04} then Refused(UnknownAddressType)
    else if Missing(s, at) then Refused(Closed)
    else Established
  }

  lemma AskedAt(s: seq<byte>, at: nat, w: seq<byte>, t: Target, port: nat)
    requires at <= |s|
    ensures AskConnect(s, at, w, t, port).outcome == Asked(s, at, t)
  {
    hide ConnectRequest;
  }
}
