/**
 * Authentication of one bot (`AuthMgr::AuthenticateBot`): the logon
 * challenge and proof exchanged with the authentication server, the realm
 * list, and the session handshake with the world server.
 *
 * This module holds the wire formats and readers; the SRP-6 arithmetic is
 * in `Srp` and the sequence of steps in `Handshake`. SHA-1 is library code
 * outside the repository and is a function parameter.
 */
module Auth {
  import opened Bytes
  import opened Wrappers
  import opened Stream
  import Opcodes

  // ---------------------------------------------------------------------------
  // Constants of the protocol

  /** `AuthCommand`: the first byte of every message on the auth connection. */
  const LOGON_CHALLENGE: byte := 0x00
  const LOGON_PROOF: byte := 0x01
  const REALM_LIST: byte := 0x10

  /** `CommandDetail::AUTH_OK`, the first byte of a successful world auth response. */
  const AUTH_OK: byte := 12

  /** The client build the bots claim to be. */
  const Build: nat := 12340

  /** The world port a realm address without `:port` gets. */
  const DefaultWorldPort: nat := 8085

  /** The bytes of `':'`. */
  const Colon: byte := 58

  const EndOfStream: string := "end of stream"

  /** A SHA-1 digest. */
  type Digest = s: seq<byte> | |s| == 20 witness seq(20, _ => 0)

  /** A value of the 32-byte big numbers the SRP-6 exchange uses. */
  type U256 = n: nat | n < Pow256(32)

  // ---------------------------------------------------------------------------
  // Names and numbers in error messages

  const AuthResultNames: seq<string> := [
    "SUCCESS", "FAILURE", "UNKNOWN1", "ACCOUNT_BANNED", "NO_MATCH", "UNKNOWN2",
    "ACCOUNT_IN_USE", "PREPAID_TIME_LIMIT", "SERVER_FULL", "WRONG_BUILD_NUMBER",
    "UPDATE_CLIENT", "UNKNOWN3", "ACCOUNT_FREEZED", "UNKNOWN4", "UNKNOWN5", "PARENTAL_CONTROL"]

  /** `AuthResultString`: the codes 0 to 15 have names, any other byte is invalid. */
  function AuthResultName(res: byte): (name: string)
    ensures name == "INVALID_AUTH_RESULT" <==> res as int >= |AuthResultNames|
  {
    if res as int < |AuthResultNames| then AuthResultNames[res] else "INVALID_AUTH_RESULT"
  }

  /** `AuthCommandString`. */
  function AuthCommandName(com: byte): (name: string)
    ensures name == "INVALID_AUTH_COMMAND" <==> !(com <= 1 || com == 0x10 || 0x30 <= com <= 0x34)
  {
    if com == 0x00 then "LOGON_CHALLENGE"
    else if com == 0x01 then "LOGON_PROOF"
    else if com == 0x10 then "REALM_LIST"
    else if com == 0x30 then "TRANSFER_INITIATE"
    else if com == 0x31 then "TRANSFER_DATA"
    else if com == 0x32 then "TRANSFER_ACCEPT"
    else if com == 0x33 then "TRANSFER_RESUME"
    else if com == 0x34 then "TRANSFER_CANCEL"
    else "INVALID_AUTH_COMMAND"
  }

  function Digit(d: nat): (c: char)
    requires d < 10
    ensures '0' <= c <= '9'
  {
    ('0' as int + d) as char
  }

  /** `std::to_string` of an unsigned number. */
  function Decimal(n: nat): (s: string)
    ensures |s| >= 1 && forall i :: 0 <= i < |s| ==> '0' <= s[i] <= '9'
    decreases n
  {
    if n < 10 then [Digit(n)] else Decimal(n / 10) + [Digit(n % 10)]
  }

  // ---------------------------------------------------------------------------
  // `std::stoi`, as the realm list's port is read

  predicate IsSpaceByte(b: byte)
  {
    b == 32 || 9 <= b <= 13
  }

  predicate IsDigitByte(b: byte)
  {
    48 <= b <= 57
  }

  /** The length of the run of decimal digits s starts with. */
  function DigitRun(s: seq<byte>): (n: nat)
    ensures n <= |s| && forall i :: 0 <= i < n ==> IsDigitByte(s[i])
    ensures n < |s| ==> !IsDigitByte(s[n])
  {
    if |s| > 0 && IsDigitByte(s[0]) then 1 + DigitRun(s[1..]) else 0
  }

  /** The number a run of digits spells, most significant first. */
  function DigitsValue(s: seq<byte>): nat
  {
    if s == [] then 0
    else 10 * DigitsValue(s[..|s| - 1]) + (if IsDigitByte(s[|s| - 1]) then s[|s| - 1] as nat - 48 else 0)
  }

  const IntMin: int := -0x8000_0000
  const IntMax: int := 0x7fff_ffff

  /**
   * `std::stoi`: leading white space, an optional sign and at least one
   * digit; what follows the digits is ignored. No digit, or a value outside
   * a 32-bit `int`, throws.
   */
  function Stoi(s: seq<byte>): (r: Result<int>)
    ensures r.Success? ==> IntMin <= r.value <= IntMax
  {
    if |s| > 0 && IsSpaceByte(s[0]) then Stoi(s[1..]) else StoiSigned(s)
  }

  /** `std::stoi` once the leading white space is skipped. */
  function StoiSigned(t: seq<byte>): (r: Result<int>)
    ensures r.Success? ==> IntMin <= r.value <= IntMax
  {
    var neg := |t| > 0 && t[0] == '-' as byte;
    var u := if |t| > 0 && (t[0] == '-' as byte || t[0] == '+' as byte) then t[1..] else t;
    var k := DigitRun(u);
    if k == 0 then Failure("stoi")
    else
      var m := DigitsValue(u[..k]);
      var v: int := if neg then -(m as int) else m;
      if v < IntMin || v > IntMax then Failure("stoi") else Success(v)
  }

  lemma {:induction false} AllDigitsRun(s: seq<byte>)
    requires forall i :: 0 <= i < |s| ==> IsDigitByte(s[i])
    ensures DigitRun(s) == |s|
  {
    if |s| > 0 {
      AllDigitsRun(s[1..]);
    }
  }

  lemma Latin1Append(a: string, b: string)
    requires forall i :: 0 <= i < |a| ==> a[i] as int < 256
    requires forall i :: 0 <= i < |b| ==> b[i] as int < 256
    ensures Latin1(a + b) == Latin1(a) + Latin1(b)
  {
  }

  /** The decimal text of n, as bytes, is a run of digits that spells n. */
  lemma {:induction false} DecimalDigits(n: nat)
    ensures DigitRun(Latin1(Decimal(n))) == |Decimal(n)|
    ensures DigitsValue(Latin1(Decimal(n))) == n
    decreases n
  {
    var l := Latin1(Decimal(n));
    AllDigitsRun(l);
    if n >= 10 {
      DecimalDigits(n / 10);
      Latin1Append(Decimal(n / 10), [Digit(n % 10)]);
      assert l[..|l| - 1] == Latin1(Decimal(n / 10));
    }
  }

  /** `std::to_string` never gives two numbers the same text. */
  lemma DecimalInjective(m: nat, n: nat)
    requires Decimal(m) == Decimal(n)
    ensures m == n
  {
    DecimalDigits(m);
    DecimalDigits(n);
  }

  /** `std::stoi` reads back what `std::to_string` wrote. */
  lemma StoiDecimal(n: nat)
    requires n <= IntMax
    ensures Stoi(Latin1(Decimal(n))) == Success(n as int)
  {
    var l := Latin1(Decimal(n));
    DecimalDigits(n);
    assert !IsSpaceByte(l[0]);
    assert l[..|l|] == l;
  }

  // ---------------------------------------------------------------------------
  // The realm address

  /** The index of the first `':'`, or |t| when there is none. */
  function FirstColon(t: seq<byte>): (i: nat)
    ensures i <= |t| && Colon !in t[..i]
    ensures i < |t| ==> t[i] == Colon
  {
    if |t| == 0 then 0
    else if t[0] == Colon then 0
    else
      var j := FirstColon(t[1..]);
      assert t[..j + 1] == [t[0]] + t[1..][..j];
      j + 1
  }

  lemma {:induction false} FirstColonOf(host: seq<byte>, rest: seq<byte>)
    requires Colon !in host
    ensures FirstColon(host + [Colon] + rest) == |host|
  {
    if |host| > 0 {
      assert (host + [Colon] + rest)[1..] == host[1..] + [Colon] + rest;
      FirstColonOf(host[1..], rest);
    }
  }

  /**
   * How a realm's address is split into host and port: at the first `':'`,
   * the port read by `std::stoi` and stored in a `uint16_t`; without a `':'`
   * the whole text is the host and the port is 8085.
   */
  function SplitAddress(tokens: seq<byte>): (r: Result<(seq<byte>, nat)>)
    ensures Colon !in tokens ==> r == Success((tokens, DefaultWorldPort))
    ensures r.Success? ==> Colon !in r.value.0 && r.value.1 < U16
    ensures r.Success? && Colon in tokens ==>
      |r.value.0| < |tokens| && tokens[..|r.value.0|] == r.value.0 && tokens[|r.value.0|] == Colon
  {
    var i := FirstColon(tokens);
    if i == |tokens| then
      assert tokens[..i] == tokens;
      Success((tokens, DefaultWorldPort))
    else
      match Stoi(tokens[i + 1..])
      case Failure(e) => Failure(e)
      case Success(v) => Success((tokens[..i], v % U16))
  }

  /** A host without `':'` and a port written in decimal come back out of the split. */
  lemma AddressRoundTrip(host: seq<byte>, port: nat)
    requires Colon !in host && port < U16
    ensures SplitAddress(host + [Colon] + Latin1(Decimal(port))) == Success((host, port))
  {
    var digits := Latin1(Decimal(port));
    StoiDecimal(port);
    SplitHostPort(host, digits, port);
  }

  lemma SplitHostPort(host: seq<byte>, digits: seq<byte>, port: nat)
    requires Colon !in host && port < U16 && Stoi(digits) == Success(port as int)
    ensures SplitAddress(host + [Colon] + digits) == Success((host, port))
  {
    var t := host + [Colon] + digits;
    var i := |host|;
    assert FirstColon(t) == i by {
      FirstColonOf(host, digits);
    }
    assert Stoi(t[i + 1..]) == Success(port as int) by {
      assert t[i + 1..] == digits;
    }
    assert t[..i] == host;
    SmallMod(port);
    var r := Stoi(t[i + 1..]);
    assert r.Success? && r.value % U16 == port;
  }

  lemma SmallMod(x: int)
    requires 0 <= x < U16
    ensures x % U16 == x
  {
  }

  // ---------------------------------------------------------------------------
  // Step 2: the client's logon challenge

  /**
   * `ClientAuthChallenge` followed by the user name: 34 fixed bytes (command,
   * the protocol value 6, a 16-bit size, "WoW", version "335", the build,
   * platform "x86", system "Win", locale "enUS" — the last three stored
   * reversed — an unknown 0x3c, the client's IP and an 8-bit name length).
   */
  function ClientChallenge(username: seq<byte>, ip: nat): (r: seq<byte>)
    requires ip < U32
    ensures |r| == 34 + |username| && r[34..] == username && r[0] == LOGON_CHALLENGE
    ensures r[33] as nat == |username| % 256
  {
    [LOGON_CHALLENGE, 6] + LE(30 + |username|, 2)
    + [87, 111, 87, 0] + [51, 51, 53] + LE(Build, 2)
    + [54, 56, 120, 0] + [110, 105, 87, 0] + [83, 85, 110, 101]
    + LE(0x3c, 4) + LE(ip, 4) + [(|username| % 256) as byte] + username
  }

  /**
   * The size field counts the bytes that follow it, and the server finds
   * the build, the address and the name where it expects them, for every
   * name shorter than 256 bytes.
   */
  lemma ClientChallengeFields(username: seq<byte>, ip: nat)
    requires ip < U32 && |username| < 256
    ensures var r := ClientChallenge(username, ip);
      FromLE(r[2..4]) == |r| - 4 && FromLE(r[11..13]) == Build && FromLE(r[29..33]) == ip &&
      r[34..34 + r[33] as nat] == username
  {
    var r := ClientChallenge(username, ip);
    Pow256Widths();
    assert r[2..4] == LE(30 + |username|, 2);
    FromLEofLE(30 + |username|, 2);
    assert r[11..13] == LE(Build, 2);
    FromLEofLE(Build, 2);
    assert r[29..33] == LE(ip, 4);
    FromLEofLE(ip, 4);
  }

  // ---------------------------------------------------------------------------
  // The server's reply header (`AssertAuthCommand`)

  /**
   * The check on a reply's command and result: a result other than
   * `SUCCESS` fails first, then a command other than the expected one.
   */
  function CheckReply(expected: byte, com: byte, res: byte): (r: Result<()>)
    ensures r.Success? <==> res == 0 && com == expected
  {
    if res != 0 then
      Failure("Auth failure: " + AuthResultName(res) + " (" + Decimal(res as nat) + ")")
    else if expected != com then
      Failure("Invalid auth command: Expected " + AuthCommandName(expected) + " but got " +
        AuthCommandName(com) + "(" + Decimal(com as nat) + ")")
    else Success(())
  }

  /**
   * A reply header read at position p: the command, one more byte when the
   * command is `LOGON_CHALLENGE`, then the result; the position after it.
   */
  function ReplyAt(d: seq<byte>, p: nat, expected: byte): (r: Result<nat>)
    requires p <= |d|
    ensures r.Success? <==> (p < |d| && d[p] == expected &&
      if expected == LOGON_CHALLENGE then p + 2 < |d| && d[p + 2] == 0 else p + 1 < |d| && d[p + 1] == 0)
    ensures r.Success? ==> r.value == (if expected == LOGON_CHALLENGE then p + 3 else p + 2)
  {
    if p >= |d| then Failure(EndOfStream)
    else
      var q := if d[p] == LOGON_CHALLENGE then p + 2 else p + 1;
      if q >= |d| then Failure(EndOfStream)
      else match CheckReply(expected, d[p], d[q])
        case Success(_) => Success(q + 1)
        case Failure(e) => Failure(e)
  }

  /** `AssertAuthCommand(expected, socket)`. */
  method ReadReply(s: InStream, expected: byte) returns (r: Result<()>)
    requires s.Valid()
    modifies s
    ensures s.Valid()
    ensures r.Success? <==> ReplyAt(s.data, old(s.pos), expected).Success?
    ensures r.Success? ==> s.pos == ReplyAt(s.data, old(s.pos), expected).value
    ensures r.Failure? ==> r.error == ReplyAt(s.data, old(s.pos), expected).error
  {
    var com := s.Read(1);
    if com.None? {
      return Failure(EndOfStream);
    }
    if com.value[0] == LOGON_CHALLENGE {
      var skipped := s.Read(1);
      if skipped.None? {
        return Failure(EndOfStream);
      }
    }
    var res := s.Read(1);
    if res.None? {
      return Failure(EndOfStream);
    }
    var checked := CheckReply(expected, com.value[0], res.value[0]);
    if checked.Failure? {
      return Failure(checked.error);
    }
    r := Success(());
  }

  // ---------------------------------------------------------------------------
  // Step 3: the server's challenge and the client's proof

  /** `ServerAuthChallenge`, 116 packed bytes; the generator is a single byte. */
  datatype ServerChallenge = ServerChallenge(
    b: seq<byte>, gLen: byte, g: byte, nLen: byte, n: seq<byte>, salt: seq<byte>, unk3: seq<byte>, securityFlags: byte)

  predicate WellSized(c: ServerChallenge)
  {
    |c.b| == 32 && |c.n| == 32 && |c.salt| == 32 && |c.unk3| == 16
  }

  /** `Read<ServerAuthChallenge>`: the fields at their packed offsets. */
  function ChallengeOf(d: seq<byte>): (c: ServerChallenge)
    requires |d| == 116
    ensures WellSized(c)
  {
    ServerChallenge(d[..32], d[32], d[33], d[34], d[35..67], d[67..99], d[99..115], d[115])
  }

  /** What the server writes for a challenge. */
  function ChallengeBytes(c: ServerChallenge): (d: seq<byte>)
    requires WellSized(c)
    ensures |d| == 116
  {
    c.b + [c.gLen, c.g, c.nLen] + c.n + c.salt + c.unk3 + [c.securityFlags]
  }

  lemma ChallengeRoundTrip(c: ServerChallenge)
    requires WellSized(c)
    ensures ChallengeOf(ChallengeBytes(c)) == c
  {
    var d := ChallengeBytes(c);
    assert d[..32] == c.b;
    assert d[35..67] == c.n;
    assert d[67..99] == c.salt;
    assert d[99..115] == c.unk3;
  }

  lemma ChallengeBytesRoundTrip(d: seq<byte>)
    requires |d| == 116
    ensures ChallengeBytes(ChallengeOf(d)) == d
  {
    var c := ChallengeOf(d);
    assert ChallengeBytes(c) == d[..32] + d[32..35] + d[35..67] + d[67..99] + d[99..115] + d[115..];
    assert d == d[..32] + d[32..35] + d[35..67] + d[67..99] + d[99..115] + d[115..];
  }

  /** The upper-cased `user:password` the password hash is taken of. */
  function AuthString(username: seq<byte>, password: seq<byte>): (r: seq<byte>)
    ensures |r| == |username| + 1 + |password|
    ensures r[|username|] == Colon && r[..|username|] == Upper(username) && r[|username| + 1..] == Upper(password)
  {
    Upper(username + [Colon] + password)
  }

  /** `BigNumber::GetBytes` over `GetNumBytes()`: least significant first, with no high zero byte. */
  function MinimalLE(v: nat): (r: seq<byte>)
    ensures FromLE(r) == v
    ensures v > 0 <==> |r| > 0
    ensures |r| > 0 ==> r[|r| - 1] != 0
    decreases v
  {
    if v == 0 then [] else [(v % 256) as byte] + MinimalLE(v / 256)
  }

  /**
   * `MergeVec(BigNumber)`: the number's bytes, with the last one dropped when
   * it is zero. It never is, so nothing is dropped. (For 0 the source indexes
   * an empty vector.)
   */
  function MergeBig(v: nat): (r: seq<byte>)
    requires v > 0
    ensures FromLE(r) == v && |r| > 0 && r[|r| - 1] != 0
  {
    var vec := MinimalLE(v);
    if vec[|vec| - 1] == 0 then vec[..|vec| - 1] else vec
  }

  lemma {:induction false} LEZero(n: nat)
    ensures LE(0, n) == Zeros(n)
  {
    if n > 0 {
      LEZero(n - 1);
      assert Zeros(n) == [0] + Zeros(n - 1);
    }
  }

  /** A number's minimal bytes padded with zeros to n bytes are its n-byte encoding. */
  lemma {:induction false} PaddedMinimal(v: nat, n: nat)
    requires v < Pow256(n)
    ensures |MinimalLE(v)| <= n && MinimalLE(v) + Zeros(n - |MinimalLE(v)|) == LE(v, n)
    decreases n
  {
    if v == 0 {
      LEZero(n);
      assert [] + Zeros(n) == Zeros(n);
    } else {
      DivBound(v, Pow256(n - 1));
      PaddedMinimal(v / 256, n - 1);
      var lo, m := (v % 256) as byte, MinimalLE(v / 256);
      assert MinimalLE(v) == [lo] + m;
      assert LE(v, n) == [lo] + LE(v / 256, n - 1);
      ConsAssoc(lo, m, Zeros(n - 1 - |m|));
    }
  }

  lemma ConsAssoc(x: byte, a: seq<byte>, b: seq<byte>)
    ensures ([x] + a) + b == [x] + (a + b)
  {
  }

  /** `sData`: S's bytes, padded with zeros to 32 when shorter. */
  function SessionBytesAsWritten(s: nat): (r: seq<byte>)
    requires s > 0
  {
    PadTo(MergeBig(s), 32)
  }

  /** d, with zeros appended up to n bytes when shorter. */
  function PadTo(d: seq<byte>, n: nat): (r: seq<byte>)
  {
    if |d| < n then d + Zeros(n - |d|) else d
  }

  /** Padding the merged bytes gives exactly the 32-byte encoding of S. */
  lemma SessionBytesFixedWidth(s: U256)
    requires s > 0
    ensures SessionBytesAsWritten(s) == LE(s, 32)
  {
    MergeBigMinimal(s);
    PadMinimal(s, 32);
  }

  /** A number's minimal bytes padded to n are its n-byte encoding. */
  lemma PadMinimal(s: nat, n: nat)
    requires s < Pow256(n)
    ensures PadTo(MinimalLE(s), n) == LE(s, n)
  {
    PaddedMinimal(s, n);
    PadFull(MinimalLE(s), LE(s, n), n);
  }

  /** `MergeBig` drops nothing. */
  lemma MergeBigMinimal(v: nat)
    requires v > 0
    ensures MergeBig(v) == MinimalLE(v)
  {
  }

  /** Padding m with zeros up to n bytes. */
  lemma PadFull(m: seq<byte>, full: seq<byte>, n: nat)
    requires |m| <= n && m + Zeros(n - |m|) == full
    ensures PadTo(m, n) == full
  {
    if |m| == n {
      assert m + Zeros(0) == m;
    }
  }

  /** The even-indexed bytes of the first 32. */
  function Evens(s: seq<byte>): (r: seq<byte>)
    requires |s| >= 32
    ensures |r| == 16 && forall i :: 0 <= i < 16 ==> r[i] == s[2 * i]
  {
    seq(16, i requires 0 <= i < 16 => s[2 * i])
  }

  /** The odd-indexed bytes of the first 32. */
  function Odds(s: seq<byte>): (r: seq<byte>)
    requires |s| >= 32
    ensures |r| == 16 && forall i :: 0 <= i < 16 ==> r[i] == s[2 * i + 1]
  {
    seq(16, i requires 0 <= i < 16 => s[2 * i + 1])
  }

  /** `keyData`: the two digests' bytes alternating, the first digest's at the even places. */
  function Interleave(h1: Digest, h2: Digest): (k: seq<byte>)
    ensures |k| == 40
  {
    seq(40, i requires 0 <= i < 40 => if i % 2 == 0 then h1[i / 2] else h2[i / 2])
  }

  /** The two digests a 40-byte key interleaves. */
  function Halves(k: seq<byte>): (r: (Digest, Digest))
    requires |k| == 40
  {
    (seq(20, i requires 0 <= i < 20 => k[2 * i]), seq(20, i requires 0 <= i < 20 => k[2 * i + 1]))
  }

  lemma HalvesOfInterleave(h1: Digest, h2: Digest)
    ensures Halves(Interleave(h1, h2)) == (h1, h2)
  {
    var k := Interleave(h1, h2);
    var h := Halves(k);
    forall i | 0 <= i < 20
      ensures h.0[i] == h1[i] && h.1[i] == h2[i]
    {
      assert (2 * i) % 2 == 0 && (2 * i) / 2 == i;
      assert (2 * i + 1) % 2 == 1 && (2 * i + 1) / 2 == i;
    }
    assert h.0 == h1 && h.1 == h2;
  }

  lemma InterleaveOfHalves(k: seq<byte>)
    requires |k| == 40
    ensures Interleave(Halves(k).0, Halves(k).1) == k
  {
    var h := Halves(k);
    forall i | 0 <= i < 40
      ensures Interleave(h.0, h.1)[i] == k[i]
    {
      if i % 2 == 0 {
        assert h.0[i / 2] == k[2 * (i / 2)];
      } else {
        assert h.1[i / 2] == k[2 * (i / 2) + 1];
      }
    }
  }

  /** The session key: SHA-1 of S's even bytes and of its odd bytes, interleaved. */
  function SessionKey(sha1: seq<byte> -> Digest, s: U256): (k: seq<byte>)
    ensures |k| == 40
  {
    var d := LE(s, 32);
    Interleave(sha1(Evens(d)), sha1(Odds(d)))
  }

  /** Each half of the session key hashes one half of S's bytes. */
  lemma SessionKeyHalves(sha1: seq<byte> -> Digest, s: U256)
    requires s > 0
    ensures var d := SessionBytesAsWritten(s);
      Halves(SessionKey(sha1, s)) == (sha1(Evens(d)), sha1(Odds(d)))
  {
    SessionBytesFixedWidth(s);
    var d := LE(s, 32);
    HalvesOfInterleave(sha1(Evens(d)), sha1(Odds(d)));
  }

  /** The logon proof as written: A is appended with `MergeVec`, at its minimal width. */
  function ProofPacketAsWritten(a: nat, m1: Digest): (r: seq<byte>)
    requires a > 0
  {
    [LOGON_PROOF] + MergeBig(a) + m1 + Zeros(22)
  }

  /** The logon proof: the command, A in 32 bytes, M1, and 22 zero bytes (CRC, key count, flags). */
  function ProofPacket(a: U256, m1: Digest): (r: seq<byte>)
    ensures |r| == 75 && r[0] == LOGON_PROOF && r[33..53] == m1 && r[53..] == Zeros(22)
    ensures FromLE(r[1..33]) == a
  {
    var e := LE(a, 32);
    FromLEofLE(a, 32);
    var r := [LOGON_PROOF] + e + m1 + Zeros(22);
    assert r[1..33] == e;
    assert r[33..53] == m1;
    assert r[53..] == Zeros(22);
    r
  }

  lemma {:induction false} Pow256Grows(i: nat, j: nat)
    requires i <= j
    ensures Pow256(i) <= Pow256(j)
    decreases j
  {
    if i < j {
      Pow256Grows(i, j - 1);
    }
  }

  /** When A's highest byte is not zero, the packet as written is the 75-byte proof. */
  lemma ProofPacketsAgree(a: U256, m1: Digest)
    requires a >= Pow256(31)
    ensures ProofPacketAsWritten(a, m1) == ProofPacket(a, m1)
  {
    PaddedMinimal(a, 32);
    var m := MinimalLE(a);
    FromLEBound(m);
    if |m| < 32 {
      Pow256Grows(|m|, 31);
    }
    assert m + Zeros(0) == m;
  }

  /** When it is zero, the packet as written is short: A no longer fills its 32 bytes. */
  lemma ProofPacketShort(a: nat, m1: Digest)
    requires 0 < a < Pow256(31)
    ensures |ProofPacketAsWritten(a, m1)| < 75
  {
    PaddedMinimal(a, 31);
  }

  /** `ClientRequestRealmlist`: the command and four zero bytes. */
  const RealmListRequest: seq<byte> := [REALM_LIST, 0, 0, 0, 0]

  // ---------------------------------------------------------------------------
  // Step 5: the realm list

  /** `RealmInfo`; the population is a `float`, kept as its four raw bytes' value. */
  datatype Realm = Realm(
    kind: byte, locked: byte, flags: byte, name: seq<byte>, address: seq<byte>, port: nat,
    population: nat, load: byte, timezone: byte, id: byte,
    major: byte, minor: byte, bugfix: byte, build: byte)

  /** `flags & 4`: the realm's version follows its id. */
  predicate HasVersion(flags: byte)
  {
    (flags as int / 4) % 2 == 1
  }

  /** The realm's three leading bytes and its name and address texts at p, and the position after them. */
  function RealmTextAt(d: seq<byte>, p: nat): (r: Option<(seq<byte>, seq<byte>, nat)>)
    requires p <= |d|
    ensures r.Some? ==> p + 3 < r.value.2 <= |d|
  {
    if p + 3 > |d| then None
    else
      var name := CStringAt(d, p + 3);
      if name.None? then None
      else
        var q := After(p + 3, name.value);
        var tokens := CStringAt(d, q);
        if tokens.None? then None else Some((name.value, tokens.value, After(q, tokens.value)))
  }

  /** The position right after a C string s that starts at i and its NUL. */
  function After(i: nat, s: seq<byte>): (j: nat)
    ensures j == i + |s| + 1
  {
    i + |s| + 1
  }

  /**
   * The rest of a realm whose texts end at t, given how its address split
   * into host and port (a failed split ends the read before anything more
   * is read: a bad port throws), the
   * population, load, time zone and id, and the four version bytes when the
   * flags say so (zero otherwise, as the value-initialised `RealmInfo`
   * holds). The position after it.
   */
  function RealmRestAt(d: seq<byte>, p: nat, name: seq<byte>, split: Result<(seq<byte>, nat)>, t: nat): (r: Result<(Realm, nat)>)
    requires p + 3 <= t <= |d|
    ensures r.Success? ==> t < r.value.1 <= |d|
  {
    match split
    case Failure(e) => Failure(e)
    case Success(addr) =>
      var versioned := HasVersion(d[p + 2]);
      var end := if versioned then t + 11 else t + 7;
      if end > |d| then Failure(EndOfStream)
      else
        var v: seq<byte> := if versioned then d[t + 7..t + 11] else [0, 0, 0, 0];
        Success((Realm(d[p], d[p + 1], d[p + 2], name, addr.0, addr.1, FromLE(d[t..t + 4]),
          d[t + 4], d[t + 5], d[t + 6], v[0], v[1], v[2], v[3]), end))
  }

  /**
   * One realm read at position p: three bytes, the name and the address as
   * C strings, then the rest.
   */
  function RealmAt(d: seq<byte>, p: nat): (r: Result<(Realm, nat)>)
    requires p <= |d|
    ensures r.Success? ==> p < r.value.1 <= |d|
  {
    match RealmTextAt(d, p)
    case None => Failure(EndOfStream)
    case Some((name, tokens, t)) => RealmRestAt(d, p, name, SplitAddress(tokens), t)
  }

  /** The outcome of a read agrees with what the specification function says at the start position. */
  predicate ReadAs<T(==)>(spec: Result<(T, nat)>, r: Result<T>, pos: nat)
  {
    (spec.Success? ==> r == Success(spec.value.0) && pos == spec.value.1) &&
    (spec.Failure? ==> r == Failure(spec.error))
  }

  /** The realm's three leading bytes and its name. */
  method ReadRealmName(s: InStream) returns (head: seq<byte>, name: Option<seq<byte>>)
    requires s.Valid()
    modifies s
    ensures s.Valid()
    ensures old(s.pos) + 3 > |s.data| ==> name == None
    ensures old(s.pos) + 3 <= |s.data| ==> head == s.data[old(s.pos)..old(s.pos) + 3] && name == CStringAt(s.data, old(s.pos) + 3)
    ensures name.Some? ==> s.pos == old(s.pos) + 3 + |name.value| + 1
  {
    var h := s.Read(3);
    if h.None? {
      return [], None;
    }
    head := h.value;
    name := s.ReadCString();
  }

  /** The leading bytes and the two C strings of a realm. */
  method ReadRealmText(s: InStream) returns (head: seq<byte>, r: Option<(seq<byte>, seq<byte>, nat)>)
    requires s.Valid()
    modifies s
    ensures s.Valid() && r == RealmTextAt(s.data, old(s.pos))
    ensures r.Some? ==> s.pos == r.value.2 && head == s.data[old(s.pos)..old(s.pos) + 3]
  {
    var name;
    head, name := ReadRealmName(s);
    if name.None? {
      assert RealmTextAt(s.data, old(s.pos)) == None;
      return head, None;
    }
    assert s.pos == After(old(s.pos) + 3, name.value);
    var tokens := s.ReadCString();
    if tokens.None? {
      assert CStringAt(s.data, After(old(s.pos) + 3, name.value)) == None;
      assert RealmTextAt(s.data, old(s.pos)) == None;
      return head, None;
    }
    RealmTextOf(s.data, old(s.pos), name.value, tokens.value);
    assert s.pos == After(After(old(s.pos) + 3, name.value), tokens.value);
    r := Some((name.value, tokens.value, s.pos));
  }

  /** The rest of a realm, after its texts. */
  method ReadRealmRest(s: InStream, ghost p: nat, head: seq<byte>, name: seq<byte>, addr: Result<(seq<byte>, nat)>)
    returns (r: Result<Realm>)
    requires s.Valid() && p + 3 <= s.pos && head == s.data[p..p + 3]
    modifies s
    ensures s.Valid()
    ensures ReadAs(RealmRestAt(s.data, p, name, addr, old(s.pos)), r, s.pos)
  {
    ghost var t0 := s.pos;
    if addr.Failure? {
      return Failure(addr.error);
    }
    var tail := s.Read(7);
    if tail.None? {
      return Failure(EndOfStream);
    }
    var t := tail.value;
    assert t[..4] == s.data[t0..t0 + 4];
    assert head[0] == s.data[p] && head[1] == s.data[p + 1] && head[2] == s.data[p + 2];
    var v: seq<byte> := [0, 0, 0, 0];
    if HasVersion(head[2]) {
      var version := s.Read(4);
      if version.None? {
        return Failure(EndOfStream);
      }
      v := version.value;
      assert v == s.data[t0 + 7..t0 + 11];
    }
    r := Success(Realm(head[0], head[1], head[2], name, addr.value.0, addr.value.1,
      FromLE(t[..4]), t[4], t[5], t[6], v[0], v[1], v[2], v[3]));
  }

  /** The body of the loop over `realms`: one realm from the socket. */
  method ReadRealm(s: InStream) returns (r: Result<Realm>)
    requires s.Valid()
    modifies s
    ensures s.Valid()
    ensures ReadAs(RealmAt(s.data, old(s.pos)), r, s.pos)
  {
    ghost var p := s.pos;
    var head, text := ReadRealmText(s);
    if text.None? {
      return Failure(EndOfStream);
    }
    var addr := SplitAddress(text.value.1);
    r := ReadRealmRest(s, p, head, text.value.0, addr);
  }

  /** k realms read one after the other from position p. */
  function RealmsAt(d: seq<byte>, p: nat, k: nat): (r: Result<(seq<Realm>, nat)>)
    requires p <= |d|
    ensures r.Success? ==> |r.value.0| == k && p <= r.value.1 <= |d|
    decreases k
  {
    if k == 0 then Success(([], p))
    else match RealmAt(d, p)
      case Failure(e) => Failure(e)
      case Success((realm, q)) => Then([realm], RealmsAt(d, q, k - 1))
  }

  /** Realms already read, followed by the outcome of reading the rest. */
  function Then(done: seq<Realm>, rest: Result<(seq<Realm>, nat)>): Result<(seq<Realm>, nat)>
  {
    match rest
    case Failure(e) => Failure(e)
    case Success((more, q)) => Success((done + more, q))
  }

  lemma ThenTwice(a: seq<Realm>, b: seq<Realm>, rest: Result<(seq<Realm>, nat)>)
    ensures Then(a, Then(b, rest)) == Then(a + b, rest)
  {
    if rest.Success? {
      assert a + (b + rest.value.0) == (a + b) + rest.value.0;
    }
  }

  lemma ThenEmpty(rest: Result<(seq<Realm>, nat)>)
    ensures Then([], rest) == rest
  {
    if rest.Success? {
      assert [] + rest.value.0 == rest.value.0;
    }
  }

  /** `ServerRealmlistHeader` (seven unknown bytes and a 16-bit count) and the realms it counts. */
  function RealmListAt(d: seq<byte>, p: nat): (r: Result<(seq<Realm>, nat)>)
    requires p <= |d|
    ensures r.Success? ==> p + 9 <= |d| && |r.value.0| == FromLE(d[p + 7..p + 9])
  {
    if p + 9 > |d| then Failure(EndOfStream)
    else RealmsAt(d, p + 9, FromLE(d[p + 7..p + 9]))
  }

  /** One more realm of the k still to read. */
  lemma RealmsStep(d: seq<byte>, p: nat, next: nat)
    requires p <= |d|
    ensures RealmAt(d, p).Failure? ==> RealmsAt(d, p, next + 1) == Failure(RealmAt(d, p).error)
    ensures RealmAt(d, p).Success? ==>
      RealmsAt(d, p, next + 1) == Then([RealmAt(d, p).value.0], RealmsAt(d, RealmAt(d, p).value.1, next))
  {
  }

  /** The loop's step: the realms read so far, one more, and the rest. */
  lemma RealmsNext(d: seq<byte>, p: nat, next: nat, done: seq<Realm>)
    requires p <= |d|
    ensures RealmAt(d, p).Failure? ==> Then(done, RealmsAt(d, p, next + 1)) == Failure(RealmAt(d, p).error)
    ensures RealmAt(d, p).Success? ==>
      Then(done, RealmsAt(d, p, next + 1)) ==
      Then(done + [RealmAt(d, p).value.0], RealmsAt(d, RealmAt(d, p).value.1, next))
  {
    RealmsStep(d, p, next);
    var r := RealmAt(d, p);
    if r.Success? {
      ThenTwice(done, [r.value.0], RealmsAt(d, r.value.1, next));
    }
  }

  /** Equal counts give equal readings. */
  lemma RealmsAtCount(d: seq<byte>, p: nat, k: nat, k': nat)
    requires p <= |d| && k == k'
    ensures RealmsAt(d, p, k) == RealmsAt(d, p, k')
  {
  }

  /** The loop over `realms`: count realms read one after the other. */
  method ReadRealms(s: InStream, count: nat) returns (r: Result<seq<Realm>>)
    requires s.Valid()
    modifies s
    ensures s.Valid()
    ensures ReadAs(RealmsAt(s.data, old(s.pos), count), r, s.pos)
  {
    ghost var spec := RealmsAt(s.data, s.pos, count);
    var left := count;
    var realms: seq<Realm> := [];
    ThenEmpty(spec);
    while left > 0
      invariant s.Valid()
      invariant spec == Then(realms, RealmsAt(s.data, s.pos, left))
    {
      ghost var p := s.pos;
      var next := left - 1;
      RealmsAtCount(s.data, p, left, next + 1);
      RealmsNext(s.data, p, next, realms);
      var realm := ReadRealm(s);
      if realm.Failure? {
        return Failure(realm.error);
      }
      realms := realms + [realm.value];
      left := next;
    }
    assert realms + [] == realms;
    assert spec == Success((realms, s.pos));
    r := Success(realms);
  }

  /** `ServerRealmlistHeader`, then the realms it counts. */
  method ReadRealmList(s: InStream) returns (r: Result<seq<Realm>>)
    requires s.Valid()
    modifies s
    ensures s.Valid()
    ensures ReadAs(RealmListAt(s.data, old(s.pos)), r, s.pos)
  {
    var unknown := s.Read(7);
    if unknown.None? {
      return Failure(EndOfStream);
    }
    var count := s.ReadNum(2);
    if count.None? {
      return Failure(EndOfStream);
    }
    r := ReadRealms(s, count.value);
  }

  // What a server sends, and that the client reads it back

  /** A C string at i: bytes without NUL, then a NUL. */
  lemma {:induction false} CStringAtOf(d: seq<byte>, i: nat, s: seq<byte>)
    requires i + |s| < |d| && d[i..i + |s|] == s && d[i + |s|] == 0 && 0 !in s
    ensures CStringAt(d, i) == Some(s)
    decreases |s|
  {
    CStringStep(d, i);
    if |s| > 0 {
      assert d[i] == s[0];
      assert d[i + 1..i + 1 + |s[1..]|] == s[1..];
      CStringAtOf(d, i + 1, s[1..]);
      assert [s[0]] + s[1..] == s;
    }
  }

  /** A C string between a prefix and whatever follows. */
  lemma {:induction false} CStringIn(pre: seq<byte>, s: seq<byte>, post: seq<byte>, i: nat)
    requires 0 !in s && i == |pre|
    ensures CStringAt(pre + s + [0] + post, i) == Some(s)
  {
    var d := pre + s + [0] + post;
    assert d[|pre|..|pre| + |s|] == s;
    CStringAtOf(d, |pre|, s);
  }

  /** A piece of a sequence between a prefix and whatever follows. */
  lemma {:induction false} Piece(pre: seq<byte>, x: seq<byte>, post: seq<byte>, i: nat)
    requires i == |pre|
    ensures i + |x| <= |pre + x + post| && (pre + x + post)[i..i + |x|] == x
  {
  }

  /** A realm a server can send: texts without NUL, a host without `':'`, a 16-bit port. */
  predicate Encodable(r: Realm)
  {
    0 !in r.name && Colon !in r.address && 0 !in r.address && r.port < U16 && r.population < U32 &&
    (!HasVersion(r.flags) ==> r.major == 0 && r.minor == 0 && r.bugfix == 0 && r.build == 0)
  }

  /** The address text `host:port`; it holds a NUL only where the host does. */
  function AddressText(host: seq<byte>, port: nat): (t: seq<byte>)
    ensures 0 !in host ==> 0 !in t
  {
    var digits := Latin1(Decimal(port));
    assert 0 !in digits by {
      forall i | 0 <= i < |digits|
        ensures digits[i] != 0
      {
        assert '0' <= Decimal(port)[i];
      }
    }
    host + [Colon] + digits
  }

  /** The fixed-size part after the texts: population, load, time zone, id and the optional version. */
  function RealmTail(r: Realm): (b: seq<byte>)
    requires r.population < U32
    ensures |b| == (if HasVersion(r.flags) then 11 else 7)
  {
    LE(r.population, 4) + [r.load, r.timezone, r.id]
    + (if HasVersion(r.flags) then [r.major, r.minor, r.bugfix, r.build] else [])
  }

  /** What a server sends for a realm. */
  function RealmBytes(r: Realm): (b: seq<byte>)
    requires r.population < U32
  {
    [r.kind, r.locked, r.flags] + r.name + [0] + AddressText(r.address, r.port) + [0] + RealmTail(r)
  }

  /** Where the leading bytes and the name of an encoded realm sit. */
  lemma {:induction false} RealmNameLayout(pre: seq<byte>, r: Realm, rest: seq<byte>)
    requires Encodable(r)
    ensures var d := pre + RealmBytes(r) + rest;
      |pre| + 3 <= |d| && d[|pre|..|pre| + 3] == [r.kind, r.locked, r.flags] &&
      CStringAt(d, |pre| + 3) == Some(r.name)
  {
    var head := [r.kind, r.locked, r.flags];
    var post := AddressText(r.address, r.port) + [0] + RealmTail(r) + rest;
    var d := pre + RealmBytes(r) + rest;
    assert d == pre + head + (r.name + [0] + post);
    Piece(pre, head, r.name + [0] + post, |pre|);
    assert d == (pre + head) + r.name + [0] + post;
    CStringIn(pre + head, r.name, post, |pre| + 3);
  }

  /** Where the address and the tail of an encoded realm sit. */
  lemma {:induction false} RealmAddressLayout(pre: seq<byte>, r: Realm, rest: seq<byte>)
    requires Encodable(r)
    ensures var d := pre + RealmBytes(r) + rest;
      var q := After(|pre| + 3, r.name);
      var t := After(q, AddressText(r.address, r.port));
      t + |RealmTail(r)| <= |d| && d[t..t + |RealmTail(r)|] == RealmTail(r) &&
      q <= |d| && CStringAt(d, q) == Some(AddressText(r.address, r.port))
  {
    var a := AddressText(r.address, r.port);
    var tail := RealmTail(r);
    var front := pre + [r.kind, r.locked, r.flags] + r.name + [0];
    var d := pre + RealmBytes(r) + rest;
    var q := After(|pre| + 3, r.name);
    assert d == front + a + [0] + (tail + rest);
    CStringIn(front, a, tail + rest, q);
    assert d == (front + a + [0]) + tail + rest;
    Piece(front + a + [0], tail, rest, After(q, a));
  }

  /** Where the pieces of an encoded realm sit. */
  lemma RealmLayout(pre: seq<byte>, r: Realm, rest: seq<byte>)
    requires Encodable(r)
    ensures var d := pre + RealmBytes(r) + rest;
      var q := After(|pre| + 3, r.name);
      var t := After(q, AddressText(r.address, r.port));
      t + |RealmTail(r)| <= |d| && d[t..t + |RealmTail(r)|] == RealmTail(r) &&
      d[|pre|..|pre| + 3] == [r.kind, r.locked, r.flags] &&
      CStringAt(d, |pre| + 3) == Some(r.name) && q <= |d| && CStringAt(d, q) == Some(AddressText(r.address, r.port))
  {
    RealmNameLayout(pre, r, rest);
    RealmAddressLayout(pre, r, rest);
  }

  /** The texts of a realm once its two C strings are known. */
  lemma RealmTextOf(d: seq<byte>, p: nat, name: seq<byte>, tokens: seq<byte>)
    requires p + 3 <= |d| && CStringAt(d, p + 3) == Some(name)
    requires After(p + 3, name) <= |d| && CStringAt(d, After(p + 3, name)) == Some(tokens)
    ensures RealmTextAt(d, p) == Some((name, tokens, After(After(p + 3, name), tokens)))
  {
  }

  lemma {:induction false} RealmTextRoundTrip(pre: seq<byte>, r: Realm, rest: seq<byte>)
    requires Encodable(r)
    ensures var d := pre + RealmBytes(r) + rest;
      var t := After(After(|pre| + 3, r.name), AddressText(r.address, r.port));
      t + |RealmTail(r)| <= |d| && d[t..t + |RealmTail(r)|] == RealmTail(r) &&
      d[|pre|..|pre| + 3] == [r.kind, r.locked, r.flags] &&
      RealmTextAt(d, |pre|) == Some((r.name, AddressText(r.address, r.port), t))
  {
    RealmLayout(pre, r, rest);
    RealmTextOf(pre + RealmBytes(r) + rest, |pre|, r.name, AddressText(r.address, r.port));
  }

  /** The fields a realm's tail carries, read back from where it sits. */
  lemma {:induction false} RealmTailFields(d: seq<byte>, t: nat, r: Realm)
    requires r.population < U32 && t + |RealmTail(r)| <= |d| && d[t..t + |RealmTail(r)|] == RealmTail(r)
    ensures FromLE(d[t..t + 4]) == r.population
    ensures d[t + 4] == r.load && d[t + 5] == r.timezone && d[t + 6] == r.id
    ensures HasVersion(r.flags) ==> d[t + 7..t + 11] == [r.major, r.minor, r.bugfix, r.build]
  {
    var tail := RealmTail(r);
    assert tail[..4] == LE(r.population, 4);
    assert d[t..t + 4] == tail[..4];
    Pow256Widths();
    FromLEofLE(r.population, 4);
    assert d[t + 4] == tail[4] && d[t + 5] == tail[5] && d[t + 6] == tail[6];
    if HasVersion(r.flags) {
      assert d[t + 7..t + 11] == tail[7..11];
    }
  }

  lemma {:induction false} RealmRestRoundTrip(d: seq<byte>, p: nat, r: Realm, t: nat, end: nat)
    requires Encodable(r) && p + 3 <= t && end == t + |RealmTail(r)| <= |d|
    requires d[t..t + |RealmTail(r)|] == RealmTail(r) && d[p..p + 3] == [r.kind, r.locked, r.flags]
    ensures RealmRestAt(d, p, r.name, Success((r.address, r.port)), t) == Success((r, end))
  {
    RealmTailFields(d, t, r);
    assert d[p] == r.kind && d[p + 1] == r.locked && d[p + 2] == r.flags;
    var v: seq<byte> := if HasVersion(r.flags) then d[t + 7..t + 11] else [0, 0, 0, 0];
    assert v == [r.major, r.minor, r.bugfix, r.build];
    assert Realm(d[p], d[p + 1], d[p + 2], r.name, r.address, r.port, FromLE(d[t..t + 4]),
      d[t + 4], d[t + 5], d[t + 6], v[0], v[1], v[2], v[3]) == r;
  }

  /** Where an encoded realm ends. */
  lemma RealmEnd(pre: seq<byte>, r: Realm, t: nat, end: nat)
    requires r.population < U32
    requires t == After(After(|pre| + 3, r.name), AddressText(r.address, r.port)) && end == |pre| + |RealmBytes(r)|
    ensures end == t + |RealmTail(r)|
  {
  }

  /** A realm read once its texts and its rest are known. */
  lemma RealmAtOf(d: seq<byte>, p: nat, name: seq<byte>, tokens: seq<byte>, t: nat, realm: Realm, end: nat)
    requires p + 3 <= t <= |d| && RealmTextAt(d, p) == Some((name, tokens, t))
    requires RealmRestAt(d, p, name, SplitAddress(tokens), t) == Success((realm, end))
    ensures RealmAt(d, p) == Success((realm, end))
  {
  }

  /** The client reads back every realm a server can send, and stops right after it. */
  lemma {:induction false} RealmRoundTrip(pre: seq<byte>, r: Realm, rest: seq<byte>)
    requires Encodable(r)
    ensures var d := pre + RealmBytes(r) + rest;
      RealmAt(d, |pre|).Success? && RealmAt(d, |pre|).value.0 == r &&
      RealmAt(d, |pre|).value.1 == |pre| + |RealmBytes(r)|
  {
    var d := pre + RealmBytes(r) + rest;
    var a := AddressText(r.address, r.port);
    var t := After(After(|pre| + 3, r.name), a);
    var end := |pre| + |RealmBytes(r)|;
    RealmEnd(pre, r, t, end);
    RealmTextRoundTrip(pre, r, rest);
    AddressRoundTrip(r.address, r.port);
    RealmRestRoundTrip(d, |pre|, r, t, end);
    RealmAtOf(d, |pre|, r.name, a, t, r, end);
    assert RealmAt(d, |pre|) == Success((r, end));
  }

  /** What a server sends for realms, one after the other. */
  function RealmsBytes(realms: seq<Realm>): seq<byte>
    requires forall i :: 0 <= i < |realms| ==> Encodable(realms[i])
  {
    if realms == [] then []
    else
      assert Encodable(realms[0]);
      RealmBytes(realms[0]) + RealmsBytes(realms[1..])
  }

  /** The first of several encoded realms, read back. */
  lemma {:induction false} RealmsHeadAt(pre: seq<byte>, realms: seq<Realm>, rest: seq<byte>)
    requires realms != [] && forall i :: 0 <= i < |realms| ==> Encodable(realms[i])
    ensures var d := pre + RealmsBytes(realms) + rest;
      RealmAt(d, |pre|).Success? && RealmAt(d, |pre|).value.0 == realms[0] &&
      RealmAt(d, |pre|).value.1 == |pre| + |RealmBytes(realms[0])|
    ensures pre + RealmsBytes(realms) + rest == (pre + RealmBytes(realms[0])) + RealmsBytes(realms[1..]) + rest
  {
    var more := RealmsBytes(realms[1..]);
    Regroup(pre, RealmBytes(realms[0]), more, rest);
    RealmRoundTrip(pre, realms[0], more + rest);
  }

  /** The same four pieces, grouped three ways. */
  lemma Regroup(a: seq<byte>, b: seq<byte>, c: seq<byte>, e: seq<byte>)
    ensures a + (b + c) + e == a + b + (c + e) && a + (b + c) + e == (a + b) + c + e
  {
  }

  /** A realm followed by more realms. */
  lemma RealmsCons(d: seq<byte>, p: nat, r: Realm, q: nat, more: seq<Realm>, end: nat)
    requires p <= |d| && RealmAt(d, p).Success? && RealmAt(d, p).value.0 == r && RealmAt(d, p).value.1 == q
    requires q <= |d| && RealmsAt(d, q, |more|).Success?
    requires RealmsAt(d, q, |more|).value.0 == more && RealmsAt(d, q, |more|).value.1 == end
    ensures RealmsAt(d, p, |more| + 1).Success? && RealmsAt(d, p, |more| + 1).value.0 == [r] + more
    ensures RealmsAt(d, p, |more| + 1).value.1 == end
  {
    RealmsStep(d, p, |more|);
  }

  /** The client reads back every run of realms a server can send, and stops right after it. */
  lemma {:induction false} RealmsRoundTrip(pre: seq<byte>, realms: seq<Realm>, rest: seq<byte>)
    requires forall i :: 0 <= i < |realms| ==> Encodable(realms[i])
    ensures var d := pre + RealmsBytes(realms) + rest;
      RealmsAt(d, |pre|, |realms|).Success? && RealmsAt(d, |pre|, |realms|).value.0 == realms &&
      RealmsAt(d, |pre|, |realms|).value.1 == |pre| + |RealmsBytes(realms)|
    decreases |realms|, 1
  {
    if realms == [] {
      RealmsNone(pre, rest);
    } else {
      RealmsSome(pre, realms, rest);
    }
  }

  lemma RealmsNone(pre: seq<byte>, rest: seq<byte>)
    ensures var d := pre + RealmsBytes([]) + rest;
      RealmsAt(d, |pre|, 0).Success? && RealmsAt(d, |pre|, 0).value.0 == [] &&
      RealmsAt(d, |pre|, 0).value.1 == |pre| + |RealmsBytes([])|
  {
  }

  lemma {:induction false} RealmsSome(pre: seq<byte>, realms: seq<Realm>, rest: seq<byte>)
    requires realms != [] && forall i :: 0 <= i < |realms| ==> Encodable(realms[i])
    ensures var d := pre + RealmsBytes(realms) + rest;
      RealmsAt(d, |pre|, |realms|).Success? && RealmsAt(d, |pre|, |realms|).value.0 == realms &&
      RealmsAt(d, |pre|, |realms|).value.1 == |pre| + |RealmsBytes(realms)|
    decreases |realms|, 0
  {
    var d := pre + RealmsBytes(realms) + rest;
    var front, tail := pre + RealmBytes(realms[0]), realms[1..];
    assert forall i :: 0 <= i < |tail| ==> Encodable(tail[i]);
    assert RealmsBytes(realms) == RealmBytes(realms[0]) + RealmsBytes(tail);
    var end := |front| + |RealmsBytes(tail)|;
    assert end == |pre| + |RealmsBytes(realms)|;
    RealmsHeadAt(pre, realms, rest);
    assert d == front + RealmsBytes(tail) + rest;
    RealmsRoundTrip(front, tail, rest);
    RealmsCons(d, |pre|, realms[0], |front|, tail, end);
    RealmsAtCount(d, |pre|, |tail| + 1, |realms|);
    ConsSplit(realms);
    var res := RealmsAt(d, |pre|, |realms|);
    assert res.Success? && res.value.0 == [realms[0]] + tail && res.value.1 == end;
  }

  /** `ServerRealmlistHeader` and the realms it counts, as a server sends them. */
  function RealmListBytes(unknown: seq<byte>, realms: seq<Realm>): (b: seq<byte>)
    requires |unknown| == 7 && |realms| < U16
    requires forall i :: 0 <= i < |realms| ==> Encodable(realms[i])
  {
    unknown + LE(|realms|, 2) + RealmsBytes(realms)
  }

  /** The header of an encoded realm list: its count field holds the number of realms. */
  lemma {:induction false} RealmListHeader(pre: seq<byte>, unknown: seq<byte>, realms: seq<Realm>, rest: seq<byte>)
    requires |unknown| == 7 && |realms| < U16
    requires forall i :: 0 <= i < |realms| ==> Encodable(realms[i])
    ensures var d := pre + RealmListBytes(unknown, realms) + rest;
      |pre| + 9 <= |d| && FromLE(d[|pre| + 7..|pre| + 9]) == |realms| &&
      d == (pre + unknown + LE(|realms|, 2)) + RealmsBytes(realms) + rest
  {
    var d := pre + RealmListBytes(unknown, realms) + rest;
    assert d == (pre + unknown + LE(|realms|, 2)) + RealmsBytes(realms) + rest;
    assert d[|pre| + 7..|pre| + 9] == LE(|realms|, 2);
    Pow256Widths();
    FromLEofLE(|realms|, 2);
  }

  /** The client reads back every realm list a server can send. */
  lemma {:induction false} RealmListRoundTrip(pre: seq<byte>, unknown: seq<byte>, realms: seq<Realm>, rest: seq<byte>)
    requires |unknown| == 7 && |realms| < U16
    requires forall i :: 0 <= i < |realms| ==> Encodable(realms[i])
    ensures var d := pre + RealmListBytes(unknown, realms) + rest;
      RealmListAt(d, |pre|).Success? && RealmListAt(d, |pre|).value.0 == realms &&
      RealmListAt(d, |pre|).value.1 == |pre| + |RealmListBytes(unknown, realms)|
  {
    var d := pre + RealmListBytes(unknown, realms) + rest;
    RealmListHeader(pre, unknown, realms, rest);
    RealmsRoundTrip(pre + unknown + LE(|realms|, 2), realms, rest);
    RealmsAtCount(d, |pre| + 9, FromLE(d[|pre| + 7..|pre| + 9]), |realms|);
  }
}
