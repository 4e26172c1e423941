/**
 Every verdict of the ClientHello parser and of the extraction as a condition on the octets
 alone: what the input starts with, where it breaks off, and which record comes first after
 the ChangeCipherSpec records.
 */
module SniVerdicts {
  import opened Bytes
  import opened Sni
  import opened SniGrammar
  import opened TlsExtract

  /** "GET ", "POST", "HEAD", "PUT ", "DELE", "OPTI", "PATC" or "CONN". */
  ghost predicate Http(s: seq<byte>) {
    || [0x47, 0x45, 0x54, 0x20] <= s
    || [0x50, 0x4f, 0x53, 0x54] <= s
    || [0x48, 0x45, 0x41, 0x44] <= s
    || [0x50, 0x55, 0x54, 0x20] <= s
    || [0x44, 0x45, 0x4c, 0x45] <= s
    || [0x4f, 0x50, 0x54, 0x49] <= s
    || [0x50, 0x41, 0x54, 0x43] <= s
    || [0x43, 0x4f, 0x4e, 0x4e] <= s
  }

  /** The length of a record with its header of five octets. */
  ghost function Length(s: seq<byte>): (n: nat)
    requires 5 <= |s|
  {
    5 + 256 * (s[3] as int) + s[4] as int
  }

  ghost predicate Whole(s: seq<byte>) {
    5 <= |s| && Length(s) <= |s|
  }

  /** The first `n` octets are whole records of type 0x14. */
  ghost predicate Skips(s: seq<byte>, n: nat)
    decreases |s|
  {
    n == 0 ||
    (Whole(s) && s[0] == 0x14 && Length(s) <= n && Skips(s[Length(s)..], n - Length(s)))
  }

  /** The input ends inside a record header or inside a record of type 0x14 or 0x16. */
  ghost predicate Breaks(s: seq<byte>) {
    |s| < 5 || ((s[0] == 0x14 || s[0] == 0x16) && !Whole(s))
  }

  /** A header of another type, or a whole handshake record of no version from 3.0 to 3.4. */
  ghost predicate Alien(s: seq<byte>) {
    5 <= |s| && ((s[0] != 0x14 && s[0] != 0x16) || (s[0] == 0x16 && Whole(s) && (s[1] != 3 || s[2] > 4)))
  }

  /** A whole handshake record of a version from 3.0 to 3.4. */
  ghost predicate Handshake(s: seq<byte>) {
    Whole(s) && s[0] == 0x16 && s[1] == 3 && s[2] <= 4
  }

  ghost predicate BreaksOff(s: seq<byte>) {
    exists n: nat :: n <= |s| && Skips(s, n) && Breaks(s[n..])
  }

  ghost predicate LeadsToAlien(s: seq<byte>) {
    exists n: nat :: n <= |s| && Skips(s, n) && Alien(s[n..])
  }

  ghost predicate LeadsToHandshake(s: seq<byte>) {
    exists n: nat :: n <= |s| && Skips(s, n) && Handshake(s[n..])
  }

  // --------------------------------------------------------- the record search

  /** Whole records of type 0x14 do not change what is found behind them. */
  lemma {:induction false} LocateBehind(s: seq<byte>, n: nat)
    requires n <= |s| && Skips(s, n)
    ensures Locate(s) == Shift(Locate(s[n..]), n)
    decreases |s|
  {
    hide Locate;
    if n == 0 {
      assert s[0..] == s;
    } else {
      var len := Length(s);
      LocateUnfolds(s);
      LocateBehind(s[len..], n - len);
      assert s[len..][n - len..] == s[n..];
    }
  }

  /** The search always comes to an end of one of the three kinds. */
  lemma {:induction false} SomeEnd(s: seq<byte>)
    ensures exists n: nat :: n <= |s| && Skips(s, n) && (Breaks(s[n..]) || Alien(s[n..]) || Handshake(s[n..]))
    decreases |s|
  {
    if Whole(s) && s[0] == 0x14 {
      var len := Length(s);
      SomeEnd(s[len..]);
      var m: nat :| m <= |s| - len && Skips(s[len..], m) && (Breaks(s[len..][m..]) || Alien(s[len..][m..]) || Handshake(s[len..][m..]));
      assert s[len..][m..] == s[len + m..] && Skips(s, len + m);
    } else {
      assert s[0..] == s && Skips(s, 0);
    }
  }

  /** What the search finds where it ends, and the verdict on it. */
  lemma EndDecides(s: seq<byte>, n: nat, text: Decoder)
    requires n <= |s| && Skips(s, n) && 5 <= |s| && !IsPlainHttp(s)
    ensures Breaks(s[n..]) ==> Parse(s, text).0 == NeedMore
    ensures Alien(s[n..]) ==> Parse(s, text).0 == Unknown
    ensures Handshake(s[n..]) ==> Parse(s, text).0.Tls? || Parse(s, text).0.TlsNoSni?
  {
    hide Locate, IsPlainHttp, HelloHost, Skips;
    LocateBehind(s, n);
    LocateUnfolds(s[n..]);
    if Whole(s[n..]) {
      var end := n + Length(s[n..]);
      assert s[n..end][..3] == s[n..][..3];
    }
  }

  lemma HttpExactly(s: seq<byte>)
    ensures IsPlainHttp(s) == Http(s)
  {
    forall i: nat | i < |METHODS| && METHODS[i] <= s
      ensures IsPlainHttp(s)
    {
      assert METHODS[i] in METHODS;
    }
    assert [0x47, 0x45, 0x54, 0x20] == METHODS[0] && [0x50, 0x4f, 0x53, 0x54] == METHODS[1] && [0x48, 0x45, 0x41, 0x44] == METHODS[2];
    assert [0x50, 0x55, 0x54, 0x20] == METHODS[3] && [0x44, 0x45, 0x4c, 0x45] == METHODS[4] && [0x4f, 0x50, 0x54, 0x49] == METHODS[5];
    assert [0x50, 0x41, 0x54, 0x43] == METHODS[6] && [0x43, 0x4f, 0x4e, 0x4e] == METHODS[7];
  }

  /**
   The verdicts on the bytes read so far. HTTP is reported for at least five octets that
   start with a method. Otherwise whole records of type 0x14 are passed over, and what comes
   next decides: the input ends there and more is needed; a record of another type or of a
   bad version is unknown; and a whole handshake record has no server name exactly when the
   input starts with no flight of the grammar whose host decodes.
   */
  lemma VerdictsExactly(buf: seq<byte>, text: Decoder)
    ensures Parse(buf, text).0 == PlainHttp <==> 5 <= |buf| && Http(buf)
    ensures Parse(buf, text).0 == NeedMore <==> |buf| < 5 || (!Http(buf) && BreaksOff(buf))
    ensures Parse(buf, text).0 == Unknown <==> !Http(buf) && LeadsToAlien(buf)
    ensures Parse(buf, text).0 == TlsNoSni <==>
      !Http(buf) && LeadsToHandshake(buf) && !exists f: Flight, h: string, k: nat :: IsFlight(f, buf, text, h, k)
  {
    hide IsFlight, Parse;
    var verdict := Parse(buf, text);
    ParseUnfolds(buf, text);
    if 5 <= |buf| && !Http(buf) {
      SomeEnd(buf);
      EndsDecide(buf, text);
      forall f: Flight, h: string, k: nat | IsFlight(f, buf, text, h, k)
        ensures verdict == (Tls(h), k)
      {
        AcceptsExactlyTheGrammar(buf, text, h, k);
      }
      if verdict.0.Tls? {
        AcceptsExactlyTheGrammar(buf, text, verdict.0.host, verdict.1);
      }
    }
  }

  lemma ParseUnfolds(buf: seq<byte>, text: Decoder)
    ensures |buf| < 5 ==> Parse(buf, text).0 == NeedMore
    ensures 5 <= |buf| ==> (Parse(buf, text).0 == PlainHttp <==> Http(buf))
  {
    HttpExactly(buf);
  }

  lemma EndsDecide(s: seq<byte>, text: Decoder)
    requires 5 <= |s| && !Http(s)
    ensures BreaksOff(s) ==> Parse(s, text).0 == NeedMore
    ensures LeadsToAlien(s) ==> Parse(s, text).0 == Unknown
    ensures LeadsToHandshake(s) ==> Parse(s, text).0.Tls? || Parse(s, text).0.TlsNoSni?
  {
    hide Parse, IsPlainHttp, Breaks, Alien, Handshake;
    HttpExactly(s);
    forall n: nat | n <= |s| && Skips(s, n)
      ensures Breaks(s[n..]) ==> Parse(s, text).0 == NeedMore
      ensures Alien(s[n..]) ==> Parse(s, text).0 == Unknown
      ensures Handshake(s[n..]) ==> Parse(s, text).0.Tls? || Parse(s, text).0.TlsNoSni?
    {
      EndDecides(s, n, text);
    }
  }

  // ------------------------------------------------------------ the extraction

  /** What the extraction can look at: the first 16384 octets. */
  ghost function View(stream: seq<byte>): seq<byte> {
    if |stream| <= 16384 then stream else stream[..16384]
  }

  /**
   Why a client is turned away, from the octets it sends before it closes: not TLS for HTTP
   and for alien records; no server name for a handshake record that starts no flight; and,
   where the octets break off first, too large a hello or an early close by their number.
   */
  lemma RefusalsExactly(stream: seq<byte>, text: Decoder)
    ensures var v := View(stream);
            VerdictOn(stream, text) == Refuse(NonTls) <==> (if Http(v) then 5 <= |v| else LeadsToAlien(v))
    ensures var v := View(stream);
            VerdictOn(stream, text) == Refuse(NoSni) <==>
            !Http(v) && LeadsToHandshake(v) && !exists f: Flight, h: string, k: nat :: IsFlight(f, v, text, h, k)
    ensures VerdictOn(stream, text) == Refuse(TooLarge) <==>
            16384 <= |stream| && !Http(View(stream)) && BreaksOff(View(stream))
    ensures VerdictOn(stream, text) == Refuse(ClosedEarly) <==>
            |stream| < 5 || (|stream| < 16384 && !Http(stream) && BreaksOff(stream))
  {
    hide Parse, IsFlight, Http, BreaksOff, LeadsToAlien, LeadsToHandshake;
    VerdictsExactly(View(stream), text);
    assert View(stream) == if |stream| <= BUFFER_SIZE then stream else stream[..BUFFER_SIZE];
  }
}
