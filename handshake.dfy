/**
 * `AuthMgr::AuthenticateBot` and `Bot::SetEncryptionKey`: the steps a bot
 * takes from its first logon message to an authenticated world session.
 *
 * Both connections are `InStream`s holding everything the servers send;
 * what the client sends is recorded in the run. SHA-1, HMAC-SHA1 and the
 * ARC4 keystream a key determines are library code and come in as
 * functions. The handshake is only started by `Bot::Connect`, right after
 * `DisconnectNow` has dropped both ciphers, so it starts without them.
 */
module Handshake {
  import opened Bytes
  import opened Wrappers
  import opened Stream
  import opened Cipher
  import opened Framing
  import opened Auth
  import Packet
  import Srp
  import Opcodes

  // ---------------------------------------------------------------------------
  // Library code, account and event hooks

  /** The hash and cipher primitives the handshake calls. */
  datatype Crypto = Crypto(
    sha1: seq<byte> -> Digest,
    hmac: (seq<byte>, seq<byte>) -> Digest,
    arc4: Digest -> (nat -> byte))

  /**
   * What the event handlers decide at each step. `closeAuth` starts out
   * true in the source; every other flag starts false, and `select`
   * replaces the first realm when a handler sets it.
   */
  datatype Hooks = Hooks(
    cancelChallenge: bool, cancelProof: bool, cancelRealms: bool, select: Option<Realm>,
    closeAuth: bool, cancelClose: bool, cancelSession: bool, cancelResponse: bool)

  /** The fixed inputs of one handshake: the bot's account, the local address, the handlers' decisions. */
  datatype Setup = Setup(crypto: Crypto, username: seq<byte>, password: seq<byte>, ip: nat, hooks: Hooks)

  /** How the coroutine ends: a handler returned early, an exception was thrown, or it ran through. */
  datatype Outcome = Cancelled | Failed(error: string) | Done

  /**
   * What one handshake did: the messages sent to the auth server and to the
   * world server, whether the auth socket was closed, the realm connected to,
   * the session key the ciphers were set from, and for a completed run where
   * the world stream and the receive cipher stand.
   */
  datatype Run = Run(
    outcome: Outcome, authSent: seq<seq<byte>>, worldSent: seq<seq<byte>>, authClosed: bool,
    realm: Option<Realm>, key: Option<seq<byte>>, worldPos: nat, decPos: nat)

  /** A message for reads the source performs past the end of a buffer, which it does not check. */
  const ShortPacket: string := "packet too short"

  /** A message for an empty realm list, where the source reads element 0 of an empty vector. */
  const NoRealms: string := "empty realm list"

  // ---------------------------------------------------------------------------
  // `Bot::SetEncryptionKey`

  const ClientEncryptionKey: seq<byte> :=
    [0xC2, 0xB3, 0x72, 0x3C, 0xC6, 0xAE, 0xD9, 0xB5, 0x34, 0x3C, 0x53, 0xEE, 0x2F, 0x43, 0x67, 0xCE]
  const ClientDecryptionKey: seq<byte> :=
    [0xCC, 0x98, 0xAE, 0x04, 0xE8, 0x97, 0xEA, 0xCA, 0x12, 0xDD, 0xC0, 0x93, 0x42, 0x91, 0x53, 0x57]

  /** How many keystream bytes each cipher discards right after it is keyed. */
  const Drop: nat := 1024

  /** The keystream of the send cipher: ARC4 keyed with HMAC-SHA1 of the session key. */
  function SendStream(c: Crypto, key: seq<byte>): nat -> byte
  {
    c.arc4(c.hmac(ClientEncryptionKey, key))
  }

  /** The keystream of the receive cipher. */
  function ReceiveStream(c: Crypto, key: seq<byte>): nat -> byte
  {
    c.arc4(c.hmac(ClientDecryptionKey, key))
  }

  /**
   * Two new ciphers, keyed with HMAC-SHA1 of the session key under the two
   * fixed client keys, each advanced past its first 1024 keystream bytes
   * (the contents of the buffer that does it do not matter).
   */
  method SetEncryptionKey(c: Crypto, key: seq<byte>) returns (enc: Arc4, dec: Arc4)
    ensures fresh(enc) && fresh(dec)
    ensures enc.keystream == SendStream(c, key) && enc.pos == Drop
    ensures dec.keystream == ReceiveStream(c, key) && dec.pos == Drop
  {
    enc := new Arc4(SendStream(c, key));
    dec := new Arc4(ReceiveStream(c, key));
    var discard := Zeros(Drop);
    var sent := enc.UpdateData(discard);
    var received := dec.UpdateData(discard);
  }

  // ---------------------------------------------------------------------------
  // Step 3: the values SRP-6 derives and the proofs

  /** x: SHA-1 of the salt and of SHA-1 of `USER:PASSWORD`, read as a little-endian number. */
  function PasswordExponent(sha1: seq<byte> -> Digest, salt: seq<byte>, username: seq<byte>, password: seq<byte>): nat
  {
    FromLE(sha1(salt + sha1(AuthString(username, password))))
  }

  /** u: SHA-1 of A's and B's `MergeVec` bytes, read as a little-endian number. */
  function Scrambler(sha1: seq<byte> -> Digest, A: nat, B: nat): nat
  {
    FromLE(sha1(MinimalLE(A) + MinimalLE(B)))
  }

  /** Two digests XORed byte by byte. */
  function XorDigest(a: Digest, b: Digest): (r: Digest)
    ensures forall i :: 0 <= i < 20 ==> r[i] == XorByte(a[i], b[i])
  {
    seq(20, i requires 0 <= i < 20 => XorByte(a[i], b[i]))
  }

  /** XORing the same digest in twice gives back the first one. */
  lemma XorDigestInvolutive(a: Digest, b: Digest)
    ensures XorDigest(XorDigest(a, b), b) == a
  {
    var r := XorDigest(XorDigest(a, b), b);
    forall i | 0 <= i < 20
      ensures r[i] == a[i]
    {
      XorByteInvolutive(a[i], b[i]);
    }
  }

  /** The loops that build `gnHash`: a copy of H(N), then H(g) XORed in place. */
  method GnHash(nHash: Digest, gHash: Digest) returns (gn: Digest)
    ensures gn == XorDigest(nHash, gHash)
  {
    var v := new byte[20];
    for i := 0 to 20
      invariant forall j :: 0 <= j < i ==> v[j] == nHash[j]
    {
      v[i] := nHash[i];
    }
    for i := 0 to 20
      invariant forall j :: 0 <= j < i ==> v[j] == XorByte(nHash[j], gHash[j])
      invariant forall j :: i <= j < 20 ==> v[j] == nHash[j]
    {
      v[i] := XorByte(v[i], gHash[i]);
    }
    gn := v[..];
  }

  /**
   * The loops that build `keyData`: the even bytes of S hashed into the
   * even places of the key, the odd bytes hashed into the odd places.
   */
  method DeriveKey(sha1: seq<byte> -> Digest, sData: seq<byte>) returns (keyData: seq<byte>)
    requires |sData| >= 32
    ensures keyData == Interleave(sha1(Evens(sData)), sha1(Odds(sData)))
  {
    var key := new byte[40];
    var temp := new byte[16];
    for i := 0 to 16
      invariant forall j :: 0 <= j < i ==> temp[j] == sData[2 * j]
    {
      temp[i] := sData[i * 2];
    }
    assert temp[..] == Evens(sData);
    var evenHash := sha1(temp[..]);
    for i := 0 to 20
      invariant forall j :: 0 <= j < i ==> key[2 * j] == evenHash[j]
    {
      key[i * 2] := evenHash[i];
    }
    for i := 0 to 16
      invariant forall j :: 0 <= j < i ==> temp[j] == sData[2 * j + 1]
      invariant forall j :: 0 <= j < 20 ==> key[2 * j] == evenHash[j]
    {
      temp[i] := sData[i * 2 + 1];
    }
    assert temp[..] == Odds(sData);
    var oddHash := sha1(temp[..]);
    for i := 0 to 20
      invariant forall j :: 0 <= j < 20 ==> key[2 * j] == evenHash[j]
      invariant forall j :: 0 <= j < i ==> key[2 * j + 1] == oddHash[j]
    {
      key[i * 2 + 1] := oddHash[i];
    }
    keyData := key[..];
    forall i | 0 <= i < 40
      ensures keyData[i] == Interleave(evenHash, oddHash)[i]
    {
      if i % 2 == 0 {
        assert keyData[2 * (i / 2)] == evenHash[i / 2];
      } else {
        assert keyData[2 * (i / 2) + 1] == oddHash[i / 2];
      }
    }
  }

  /** M1 as the client hashes it: every big number in its minimal bytes, the salt as received. */
  function ClientProof(sha1: seq<byte> -> Digest, c: ServerChallenge, username: seq<byte>, A: nat, key: seq<byte>): Digest
    requires WellSized(c)
  {
    var gn := XorDigest(sha1(MinimalLE(FromLE(c.n))), sha1(MinimalLE(c.g as nat)));
    sha1(gn + sha1(username) + c.salt + MinimalLE(A) + MinimalLE(FromLE(c.b)) + MinimalLE(FromLE(key)))
  }

  /** M2, the answer the client expects: SHA-1 of A, M1 and the 40 key bytes. */
  function ServerProof(sha1: seq<byte> -> Digest, A: nat, m1: Digest, key: seq<byte>): Digest
  {
    sha1(MinimalLE(A) + m1 + key)
  }

  /** What the client derives from a challenge: its public value A, the session key, M1 and M2. */
  datatype Secrets = Secrets(A: nat, key: seq<byte>, m1: Digest, m2: Digest)

  /** The shared secret S the client computes, below N. */
  function ClientS(sha1: seq<byte> -> Digest, c: ServerChallenge, username: seq<byte>, password: seq<byte>, A: nat): (s: U256)
    requires WellSized(c) && FromLE(c.n) > 0
  {
    var g, n, b := c.g as nat, FromLE(c.n), FromLE(c.b);
    var x := PasswordExponent(sha1, c.salt, username, password);
    FromLEBound(c.n);
    Srp.ClientSecret(b, g, n, x, Srp.PrivateExponent(), Scrambler(sha1, A, b))
  }

  /**
   * The client's side of step 3. A is g^a mod N for the fixed private
   * exponent; when it is 0 the exchange fails (see `Srp.ChooseA`).
   */
  function DeriveSecrets(sha1: seq<byte> -> Digest, c: ServerChallenge, username: seq<byte>, password: seq<byte>): (r: Result<Secrets>)
    requires WellSized(c)
    ensures r.Success? <==> Srp.ModExp(c.g as nat, Srp.PrivateExponent(), FromLE(c.n)) != 0
    ensures r.Success? ==>
      r.value.A == Srp.ModExp(c.g as nat, Srp.PrivateExponent(), FromLE(c.n)) &&
      0 < r.value.A < FromLE(c.n) && |r.value.key| == 40
  {
    match Srp.ChooseA(c.g as nat, FromLE(c.n))
    case Failure(e) => Failure(e)
    case Success(chosen) =>
      var A := chosen.1;
      var key := SessionKey(sha1, ClientS(sha1, c, username, password, A));
      var m1 := ClientProof(sha1, c, username, A, key);
      Success(Secrets(A, key, m1, ServerProof(sha1, A, m1, key)))
  }

  /** Step 3's arithmetic as the coroutine runs it, with its loops. */
  method ComputeSecrets(sha1: seq<byte> -> Digest, c: ServerChallenge, username: seq<byte>, password: seq<byte>)
    returns (r: Result<Secrets>)
    requires WellSized(c)
    ensures r == DeriveSecrets(sha1, c, username, password)
  {
    var g, n, b := c.g as nat, FromLE(c.n), FromLE(c.b);
    var chosen := Srp.ChooseA(g, n);
    if chosen.Failure? {
      return Failure(chosen.error);
    }
    var A := chosen.value.1;
    var s := ClientS(sha1, c, username, password, A);
    var sData := PadTo(MinimalLE(s), 32);
    PadMinimal(s, 32);
    var keyData := DeriveKey(sha1, sData);
    var gn := GnHash(sha1(MinimalLE(n)), sha1(MinimalLE(g)));
    var m1 := sha1(gn + sha1(username) + c.salt + MinimalLE(A) + MinimalLE(b) + MinimalLE(FromLE(keyData)));
    var m2 := sha1(MinimalLE(A) + m1 + keyData);
    r := Success(Secrets(A, keyData, m1, m2));
  }

  // ---------------------------------------------------------------------------
  // Step 7: the world session

  /** `WorldAuthResponse`: 11 packed bytes. */
  datatype WorldAuthResponse = WorldAuthResponse(
    detail: byte, billingTimeRemaining: nat, billingFlags: byte, billingTimeRested: nat, expansion: byte)

  /** `Read<WorldAuthResponse>`: the fields at their packed offsets. */
  function ResponseOf(d: seq<byte>): WorldAuthResponse
    requires |d| == 11
  {
    WorldAuthResponse(d[0], FromLE(d[1..5]), d[5], FromLE(d[6..10]), d[10])
  }

  predicate ResponseFits(r: WorldAuthResponse)
  {
    r.billingTimeRemaining < U32 && r.billingTimeRested < U32
  }

  /** What the server writes for a response. */
  function ResponseBytes(r: WorldAuthResponse): (d: seq<byte>)
    requires ResponseFits(r)
    ensures |d| == 11
  {
    [r.detail] + LE(r.billingTimeRemaining, 4) + [r.billingFlags] + LE(r.billingTimeRested, 4) + [r.expansion]
  }

  lemma ResponseRoundTrip(r: WorldAuthResponse)
    requires ResponseFits(r)
    ensures ResponseOf(ResponseBytes(r)) == r
  {
    var d := ResponseBytes(r);
    Pow256Widths();
    assert d[1..5] == LE(r.billingTimeRemaining, 4);
    assert d[6..10] == LE(r.billingTimeRested, 4);
    FromLEofLE(r.billingTimeRemaining, 4);
    FromLEofLE(r.billingTimeRested, 4);
  }

  /** The check on the response: only `AUTH_OK` lets the handshake finish. */
  function CheckResponse(r: WorldAuthResponse): (res: Result<()>)
    ensures res.Success? <==> r.detail == AUTH_OK
  {
    if r.detail != AUTH_OK then Failure("World authentication failed: " + Decimal(r.detail as nat))
    else Success(())
  }

  /** The value `getRandomBytes<4>()` gives the client seed (see `Srp.OurSeedValue`). */
  const ClientSeed: nat := 0x0302_0100

  /** The session digest: SHA-1 of the name, a zero, the client seed, the server seed and the key. */
  function SessionDigest(sha1: seq<byte> -> Digest, username: seq<byte>, seed: nat, key: seq<byte>): Digest
  {
    sha1(username + LE(0, 4) + LE(ClientSeed, 4) + LE(seed, 4) + key)
  }

  /** The fields of `CMSG_AUTH_SESSION` after the name's NUL, 52 bytes. */
  function SessionTail(sha1: seq<byte> -> Digest, username: seq<byte>, realmId: byte, seed: nat, key: seq<byte>): (t: seq<byte>)
    ensures |t| == 52
  {
    LE(0, 4) + LE(ClientSeed, 4) + LE(0, 4) + LE(0, 4) + LE(realmId as nat, 4) + LE(0, 8)
      + SessionDigest(sha1, username, seed, key) + LE(0, 4)
  }

  /** The payload of `CMSG_AUTH_SESSION`. */
  function SessionPayload(sha1: seq<byte> -> Digest, username: seq<byte>, realmId: byte, seed: nat, key: seq<byte>): (r: seq<byte>)
    ensures |r| == |username| + 61
  {
    LE(Build, 4) + LE(0, 4) + username + [0] + SessionTail(sha1, username, realmId, seed, key)
  }

  /**
   * The payload's fields where the world server reads them: the build, the
   * name as a C string, the client seed, the realm id and the digest.
   */
  lemma SessionFields(sha1: seq<byte> -> Digest, username: seq<byte>, realmId: byte, seed: nat, key: seq<byte>)
    requires 0 !in username
    ensures var d, u := SessionPayload(sha1, username, realmId, seed, key), |username|;
      FromLE(d[..4]) == Build && CStringAt(d, 8) == Some(username) &&
      FromLE(d[u + 13..u + 17]) == ClientSeed && FromLE(d[u + 25..u + 29]) == realmId as nat &&
      d[u + 37..u + 57] == SessionDigest(sha1, username, seed, key)
  {
    var t := SessionTail(sha1, username, realmId, seed, key);
    var pre := LE(Build, 4) + LE(0, 4) + username + [0];
    assert SessionPayload(sha1, username, realmId, seed, key) == pre + t;
    SessionHead(username, t);
    TailFields(sha1, username, realmId, seed, key);
    SessionTailAt(pre, t, |username|, realmId);
  }

  /** The build and the name, in front of any tail. */
  lemma SessionHead(username: seq<byte>, t: seq<byte>)
    requires 0 !in username
    ensures var d := LE(Build, 4) + LE(0, 4) + username + [0] + t;
      FromLE(d[..4]) == Build && CStringAt(d, 8) == Some(username)
  {
    var head := LE(Build, 4) + LE(0, 4);
    var pre := head + username + [0];
    Pow256Widths();
    SliceLeft(pre, t, 0, 4);
    SliceLeft(head + username, [0], 0, 4);
    SliceLeft(head, username, 0, 4);
    SliceLeft(LE(Build, 4), LE(0, 4), 0, 4);
    FromLEofLE(Build, 4);
    CStringIn(head, username, t, 8);
  }

  /** The tail's fields, read back behind a prefix of u + 9 bytes. */
  lemma SessionTailAt(pre: seq<byte>, t: seq<byte>, u: nat, realmId: byte)
    requires |pre| == u + 9 && |t| >= 48
    requires t[4..8] == LE(ClientSeed, 4) && t[16..20] == LE(realmId as nat, 4)
    ensures var d := pre + t;
      FromLE(d[u + 13..u + 17]) == ClientSeed && FromLE(d[u + 25..u + 29]) == realmId as nat &&
      d[u + 37..u + 57] == t[28..48]
  {
    Pow256Widths();
    SliceRight(pre, t, u + 13, u + 17);
    FromLEofLE(ClientSeed, 4);
    SliceRight(pre, t, u + 25, u + 29);
    FromLEofLE(realmId as nat, 4);
    SliceRight(pre, t, u + 37, u + 57);
  }

  /** Where the seed, the realm id and the digest sit in the tail. */
  lemma TailFields(sha1: seq<byte> -> Digest, username: seq<byte>, realmId: byte, seed: nat, key: seq<byte>)
    ensures var t := SessionTail(sha1, username, realmId, seed, key);
      t[4..8] == LE(ClientSeed, 4) && t[16..20] == LE(realmId as nat, 4) &&
      t[28..48] == SessionDigest(sha1, username, seed, key)
  {
    var digest := SessionDigest(sha1, username, seed, key);
    var t1 := LE(0, 4) + LE(ClientSeed, 4);
    var t5 := t1 + LE(0, 4) + LE(0, 4) + LE(realmId as nat, 4);
    var t6 := t5 + LE(0, 8);
    var t7 := t6 + digest;
    SliceLeft(t7, LE(0, 4), 28, 48);
    SliceRight(t6, digest, 28, 48);
    SliceLeft(t7, LE(0, 4), 16, 20);
    SliceLeft(t6, digest, 16, 20);
    SliceLeft(t5, LE(0, 8), 16, 20);
    SliceRight(t1 + LE(0, 4) + LE(0, 4), LE(realmId as nat, 4), 16, 20);
    SliceLeft(t7, LE(0, 4), 4, 8);
    SliceLeft(t6, digest, 4, 8);
    SliceLeft(t5, LE(0, 8), 4, 8);
    SliceLeft(t1 + LE(0, 4) + LE(0, 4), LE(realmId as nat, 4), 4, 8);
    SliceLeft(t1 + LE(0, 4), LE(0, 4), 4, 8);
    SliceLeft(t1, LE(0, 4), 4, 8);
    SliceRight(LE(0, 4), LE(ClientSeed, 4), 4, 8);
  }

  /** The packet built with the `Write` chain. */
  method BuildAuthSession(sha1: seq<byte> -> Digest, username: seq<byte>, realmId: byte, seed: nat, key: seq<byte>)
    returns (p: Packet.Packet)
    ensures fresh(p) && p.kind == Packet.World && p.ctr == 6
    ensures p.data == [0, 0] + LE(Opcodes.CMSG_AUTH_SESSION, 4) + SessionPayload(sha1, username, realmId, seed, key)
  {
    Pow256Widths();
    p := new Packet.Packet.WithOpcode(Opcodes.CMSG_AUTH_SESSION);
    ghost var h := p.data;
    p.Write(4, Build);
    p.Write(4, 0);
    AppendAssoc(h, LE(Build, 4), LE(0, 4));
    ghost var t := LE(Build, 4) + LE(0, 4);
    p.WriteCString(username);
    AppendAssoc(h, t, username);
    AppendAssoc(h, t + username, [0]);
    t := t + username + [0];
    var tail := SessionTail(sha1, username, realmId, seed, key);
    WriteSessionTail(p, sha1, username, realmId, seed, key);
    AppendAssoc(h, t, tail);
  }

  /** The `Write` chain after the name, one field at a time. */
  method WriteSessionTail(p: Packet.Packet, sha1: seq<byte> -> Digest, username: seq<byte>, realmId: byte, seed: nat, key: seq<byte>)
    modifies p
    ensures p.data == old(p.data) + SessionTail(sha1, username, realmId, seed, key) && p.ctr == old(p.ctr)
  {
    Pow256Widths();
    ghost var head := p.data;
    p.Write(4, 0);
    ghost var t := LE(0, 4);
    p.Write(4, ClientSeed);
    AppendAssoc(head, t, LE(ClientSeed, 4));
    t := t + LE(ClientSeed, 4);
    p.Write(4, 0);
    AppendAssoc(head, t, LE(0, 4));
    t := t + LE(0, 4);
    p.Write(4, 0);
    AppendAssoc(head, t, LE(0, 4));
    t := t + LE(0, 4);
    p.Write(4, realmId as nat);
    AppendAssoc(head, t, LE(realmId as nat, 4));
    t := t + LE(realmId as nat, 4);
    p.Write(8, 0);
    AppendAssoc(head, t, LE(0, 8));
    t := t + LE(0, 8);
    var digest := SessionDigest(sha1, username, seed, key);
    p.WriteBytes(digest);
    AppendAssoc(head, t, digest);
    t := t + digest;
    p.Write(4, 0);
    AppendAssoc(head, t, LE(0, 4));
  }

  /** The session packet as it goes on the wire: no cipher is set yet, so the header is in the clear. */
  function SessionWire(sha1: seq<byte> -> Digest, username: seq<byte>, realmId: byte, seed: nat, key: seq<byte>): seq<byte>
  {
    var payload := SessionPayload(sha1, username, realmId, seed, key);
    Packet.SizeField(6 + |payload|) + LE(Opcodes.CMSG_AUTH_SESSION, 4) + payload
  }

  // ---------------------------------------------------------------------------
  // The steps as functions of what the servers send
  //
  // `d` is everything the auth server sends and `p` where reading stands;
  // `w` and `q` are the same for the world server. `sent` is what went to
  // the auth server so far.

  /** A handler cancelled before the realm was chosen. */
  function Stopped(sent: seq<seq<byte>>): Run
  {
    Run(Cancelled, sent, [], false, None, None, 0, 0)
  }

  /** An exception before the realm was chosen. */
  function Failing(sent: seq<seq<byte>>, e: string): Run
  {
    Run(Failed(e), sent, [], false, None, None, 0, 0)
  }

  /** A run that got to the world server: the auth side is over, the realm chosen. */
  function WorldRun(s: Setup, sent: seq<seq<byte>>, realm: Realm, outcome: Outcome, worldSent: seq<seq<byte>>,
                    key: Option<seq<byte>>, q: nat, decPos: nat): Run
  {
    Run(outcome, sent, worldSent, s.hooks.closeAuth, Some(realm), key, q, decPos)
  }

  /** A run that ended before the session packet: it sent `sent` to the auth server, nothing else, and keyed nothing. */
  predicate Quiet(r: Run, sent: seq<seq<byte>>)
  {
    r.authSent == sent && r.worldSent == [] && r.key == None && !r.outcome.Done?
  }

  /** Where one step leaves the coroutine: returned, or going on with what it computed. */
  datatype Step<T> = Stop(run: Run) | Next(value: T)

  /** Steps 2 to 8 (step 1, opening the auth connection, is not modelled), one step after the other. */
  function Handshake(s: Setup, d: seq<byte>, p: nat, w: seq<byte>, q: nat): (r: Run)
    requires s.ip < U32 && p <= |d| && q <= |w|
    ensures r.outcome.Done? ==> r.key.Some? && q < r.worldPos <= |w|
    ensures r.outcome.Cancelled? && r.realm.Some? ==> q < r.worldPos <= |w|
  {
    if s.hooks.cancelChallenge then Stopped([])
    else
      var sent := [ClientChallenge(s.username, s.ip)];
      match ChallengeStep(s, d, p, sent)
      case Stop(r) => r
      case Next((sec, p1)) =>
        var sent1 := sent + [ProofPacketAsWritten(sec.A, sec.m1)];
        match ProofCheckStep(s, sec, d, p1, sent1)
        case Stop(r) => r
        case Next(p2) =>
          var sent2 := sent1 + [RealmListRequest];
          match RealmStep(s, d, p2, sent2)
          case Stop(r) => r
          case Next(realm) =>
            match WorldStep(s, sec, sent2, realm, w, q)
            case Stop(r) => r
            case Next((wire, q1)) => ResponseStep(s, sec, sent2, realm, wire, w, q1)
  }

  /** Step 3: the server's challenge and the secrets; going on, the proof packet is sent next. */
  function ChallengeStep(s: Setup, d: seq<byte>, p: nat, sent: seq<seq<byte>>): (r: Step<(Secrets, nat)>)
    requires p <= |d|
    ensures r.Next? ==> r.value.1 <= |d| && r.value.0.A > 0 && |r.value.0.key| == 40
    ensures r.Stop? ==> Quiet(r.run, sent) && r.run.realm == None
    ensures s.hooks.cancelProof ==> r.Stop?
  {
    match ReplyAt(d, p, LOGON_CHALLENGE)
    case Failure(e) => Stop(Failing(sent, e))
    case Success(p1) => ChallengeFrom(s, d, p1, sent)
  }

  /** Step 3 once the reply header is read: the challenge, then the secrets derived from it. */
  function ChallengeFrom(s: Setup, d: seq<byte>, p1: nat, sent: seq<seq<byte>>): (r: Step<(Secrets, nat)>)
    ensures r.Next? ==> r.value.1 <= |d| && r.value.0.A > 0 && |r.value.0.key| == 40
    ensures r.Stop? ==> Quiet(r.run, sent) && r.run.realm == None
    ensures s.hooks.cancelProof ==> r.Stop?
  {
    if p1 + 116 > |d| then Stop(Failing(sent, EndOfStream))
    else SecretsStep(s, DeriveSecrets(s.crypto.sha1, ChallengeOf(d[p1..p1 + 116]), s.username, s.password), p1 + 116, sent)
  }

  /** Step 3, once the secrets are derived: the proof handler may cancel. */
  function SecretsStep(s: Setup, secrets: Result<Secrets>, p: nat, sent: seq<seq<byte>>): (r: Step<(Secrets, nat)>)
    ensures r.Next? <==> secrets.Success? && !s.hooks.cancelProof
    ensures r.Next? ==> r.value == (secrets.value, p)
    ensures r.Stop? ==> Quiet(r.run, sent) && r.run.realm == None
    ensures s.hooks.cancelProof ==> r.Stop?
  {
    match secrets
    case Failure(e) => Stop(Failing(sent, e))
    case Success(sec) => if s.hooks.cancelProof then Stop(Stopped(sent)) else Next((sec, p))
  }

  /** Step 4: the server's proof must be M2; going on, the realm list is requested next. */
  function ProofCheckStep(s: Setup, sec: Secrets, d: seq<byte>, p: nat, sent: seq<seq<byte>>): (r: Step<nat>)
    requires p <= |d|
    ensures r.Next? ==> r.value <= |d|
    ensures r.Stop? ==> Quiet(r.run, sent) && r.run.realm == None
    ensures s.hooks.cancelRealms ==> r.Stop?
  {
    match ReplyAt(d, p, LOGON_PROOF)
    case Failure(e) => Stop(Failing(sent, e))
    case Success(p1) =>
      if p1 + 30 > |d| then Stop(Failing(sent, EndOfStream))
      else if d[p1..p1 + 20] != sec.m2 then Stop(Failing(sent, "Server proof mismatch"))
      else if s.hooks.cancelRealms then Stop(Stopped(sent))
      else Next(p1 + 30)
  }

  /** Steps 5 and 6: the realm list, the realm chosen, the auth socket closed or kept. */
  function RealmStep(s: Setup, d: seq<byte>, p: nat, sent: seq<seq<byte>>): (r: Step<Realm>)
    requires p <= |d|
    ensures r.Next? ==>
      RealmListAt(d, p).Success? && RealmListAt(d, p).value.0 != [] &&
      r.value == if s.hooks.select.Some? then s.hooks.select.value else RealmListAt(d, p).value.0[0]
    ensures r.Stop? ==> Quiet(r.run, sent) && r.run.realm == None
    ensures s.hooks.cancelClose ==> r.Stop?
  {
    match RealmListAt(d, p)
    case Failure(e) => Stop(Failing(sent, e))
    case Success((realms, _)) =>
      if realms == [] then Stop(Failing(sent, NoRealms))
      else if s.hooks.cancelClose then Stop(Run(Cancelled, sent, [], s.hooks.closeAuth, None, None, 0, 0))
      else Next(if s.hooks.select.Some? then s.hooks.select.value else realms[0])
  }

  /** Step 7: the world server's challenge, read in the clear; going on, the session packet is on the wire. */
  function WorldStep(s: Setup, sec: Secrets, sent: seq<seq<byte>>, realm: Realm, w: seq<byte>, q: nat): (r: Step<(seq<byte>, nat)>)
    requires q <= |w|
    ensures r.Next? ==> q < r.value.1 <= |w|
    ensures r.Stop? ==> Quiet(r.run, sent)
    ensures r.Stop? && r.run.outcome.Cancelled? ==> q < r.run.worldPos <= |w|
    ensures s.hooks.cancelSession ==> r.Stop?
  {
    match ReadFrame(w[q..], None, 0)
    case Eof(_) => Stop(WorldRun(s, sent, realm, Failed(EndOfStream), [], None, 0, 0))
    case Frame(pkt, used, _) => SessionStep(s, sec, sent, realm, pkt, q + used)
  }

  /** Step 7 once the challenge packet is read: check it, build the answer, let the handler cancel. */
  function SessionStep(s: Setup, sec: Secrets, sent: seq<seq<byte>>, realm: Realm, pkt: seq<byte>, next: nat): (r: Step<(seq<byte>, nat)>)
    requires |pkt| >= 6
    ensures r.Next? ==> r.value.1 == next
    ensures r.Stop? ==> Quiet(r.run, sent)
    ensures r.Stop? && r.run.outcome.Cancelled? ==> r.run.worldPos == next
    ensures s.hooks.cancelSession ==> r.Stop?
  {
    var op := FromLE(pkt[2..6]);
    if op != Opcodes.SMSG_AUTH_CHALLENGE then
      Stop(WorldRun(s, sent, realm, Failed("Got wrong opcode " + Decimal(op)), [], None, 0, 0))
    else if |pkt| < 46 then Stop(WorldRun(s, sent, realm, Failed(ShortPacket), [], None, 0, 0))
    else if s.hooks.cancelSession then Stop(WorldRun(s, sent, realm, Cancelled, [], None, next, 0))
    else Next((SessionWire(s.crypto.sha1, s.username, realm.id, FromLE(pkt[10..14]), sec.key), next))
  }

  /** Step 7, second half: the ciphers are keyed and the response read through the receive cipher. */
  function ResponseStep(s: Setup, sec: Secrets, sent: seq<seq<byte>>, realm: Realm, wire: seq<byte>, w: seq<byte>, q: nat): (r: Run)
    requires q <= |w|
    ensures r.outcome.Done? ==> q < r.worldPos <= |w| && r.decPos > Drop
    ensures !r.outcome.Cancelled?
    ensures r.authSent == sent && r.worldSent == [wire] && r.key == Some(sec.key)
    ensures r.realm == Some(realm) && r.authClosed == s.hooks.closeAuth
  {
    match ReadFrame(w[q..], Some(ReceiveStream(s.crypto, sec.key)), Drop)
    case Eof(_) => WorldRun(s, sent, realm, Failed(EndOfStream), [wire], Some(sec.key), 0, 0)
    case Frame(pkt, used, dec) => ResponseCheck(s, sec, sent, realm, wire, pkt, q + used, Drop + dec)
  }

  /**
   * Step 8: the response must carry `AUTH_OK`. A wrong opcode is reported
   * with the number of the challenge packet's opcode, as the source does.
   */
  function ResponseCheck(s: Setup, sec: Secrets, sent: seq<seq<byte>>, realm: Realm, wire: seq<byte>, pkt: seq<byte>,
                         next: nat, decPos: nat): (r: Run)
    requires |pkt| >= 6
    ensures r.outcome.Done? ==> r.worldPos == next && r.decPos == decPos
    ensures !r.outcome.Cancelled?
    ensures r.authSent == sent && r.worldSent == [wire] && r.key == Some(sec.key)
    ensures r.realm == Some(realm) && r.authClosed == s.hooks.closeAuth
  {
    var key := Some(sec.key);
    if FromLE(pkt[2..6]) != Opcodes.SMSG_AUTH_RESPONSE then
      WorldRun(s, sent, realm, Failed("Got wrong opcode " + Decimal(Opcodes.SMSG_AUTH_CHALLENGE)), [wire], key, 0, 0)
    else if |pkt| < 17 then WorldRun(s, sent, realm, Failed(ShortPacket), [wire], key, 0, 0)
    else match CheckResponse(ResponseOf(pkt[6..17]))
      case Failure(e) => WorldRun(s, sent, realm, Failed(e), [wire], key, 0, 0)
      case Success(_) => WorldRun(s, sent, realm, Done, [wire], key, next, decPos)
  }

  // ---------------------------------------------------------------------------
  // The coroutine, step by step, over the two connections

  /**
   * What a run hands to the packet loop: after a completed run, the world
   * stream past the response and the receive cipher; after a cancel with the
   * world connection open, the stream past the challenge and no cipher.
   */
  ghost predicate Ready(s: Setup, run: Run, world: InStream, dec: Arc4?)
    reads world, dec
  {
    (run.outcome.Done? ==>
      run.key.Some? && world.pos == run.worldPos && dec != null &&
      dec.keystream == ReceiveStream(s.crypto, run.key.value) && dec.pos == run.decPos) &&
    (run.outcome.Cancelled? && run.realm.Some? ==> world.pos == run.worldPos && dec == null)
  }

  /** `AuthMgr::AuthenticateBot` after the auth connection is open. */
  method AuthenticateBot(s: Setup, auth: InStream, world: InStream) returns (run: Run, enc: Arc4?, dec: Arc4?)
    requires s.ip < U32 && auth.Valid() && world.Valid() && auth != world
    modifies auth, world
    ensures auth.Valid() && world.Valid()
    ensures run == Handshake(s, auth.data, old(auth.pos), world.data, old(world.pos))
    ensures Ready(s, run, world, dec) && (enc != null ==> fresh(enc)) && (dec != null ==> fresh(dec))
  {
    enc, dec := null, null;
    if s.hooks.cancelChallenge {
      return Stopped([]), enc, dec;
    }
    var sent := [ClientChallenge(s.username, s.ip)];
    var challenge := ReadChallenge(s, auth, sent);
    if challenge.Stop? {
      return challenge.run, enc, dec;
    }
    var sec := challenge.value.0;
    sent := sent + [ProofPacketAsWritten(sec.A, sec.m1)];
    var proof := VerifyProof(s, sec, auth, sent);
    if proof.Stop? {
      return proof.run, enc, dec;
    }
    sent := sent + [RealmListRequest];
    var realm := RequestRealms(s, auth, sent);
    if realm.Stop? {
      return realm.run, enc, dec;
    }
    var session := ConnectWorld(s, sec, sent, realm.value, world);
    if session.Stop? {
      return session.run, enc, dec;
    }
    run, enc, dec := AwaitResponse(s, sec, sent, realm.value, session.value.0, world);
  }

  /** Step 3 on the auth connection. */
  method ReadChallenge(s: Setup, auth: InStream, sent: seq<seq<byte>>) returns (r: Step<(Secrets, nat)>)
    requires auth.Valid()
    modifies auth
    ensures auth.Valid()
    ensures r == ChallengeStep(s, auth.data, old(auth.pos), sent)
    ensures r.Next? ==> auth.pos == r.value.1
  {
    var reply := ReadReply(auth, LOGON_CHALLENGE);
    if reply.Failure? {
      return Stop(Failing(sent, reply.error));
    }
    r := ReadChallengeBody(s, auth, sent);
    ChallengeStepFrom(s, auth.data, old(auth.pos), ReplyAt(auth.data, old(auth.pos), LOGON_CHALLENGE).value, sent);
  }

  /** Step 3 is its second half once the reply header is read. */
  lemma ChallengeStepFrom(s: Setup, d: seq<byte>, p: nat, p1: nat, sent: seq<seq<byte>>)
    requires p <= |d| && ReplyAt(d, p, LOGON_CHALLENGE) == Success(p1)
    ensures ChallengeStep(s, d, p, sent) == ChallengeFrom(s, d, p1, sent)
  {
  }

  /** Step 3 once the reply header is read: the challenge, the secrets, the proof handler. */
  method ReadChallengeBody(s: Setup, auth: InStream, sent: seq<seq<byte>>) returns (r: Step<(Secrets, nat)>)
    requires auth.Valid()
    modifies auth
    ensures auth.Valid()
    ensures r == ChallengeFrom(s, auth.data, old(auth.pos), sent)
    ensures r.Next? ==> auth.pos == r.value.1
  {
    ghost var p1 := auth.pos;
    var raw := auth.Read(116);
    if raw.None? {
      return Stop(Failing(sent, EndOfStream));
    }
    var challenge := ChallengeOf(raw.value);
    assert challenge == ChallengeOf(auth.data[p1..p1 + 116]);
    var secrets := ComputeSecrets(s.crypto.sha1, challenge, s.username, s.password);
    r := OfferProof(s, secrets, auth.pos, sent);
  }

  /** Step 3's end: an error from the arithmetic, or the proof handler's decision. */
  method OfferProof(s: Setup, secrets: Result<Secrets>, p: nat, sent: seq<seq<byte>>) returns (r: Step<(Secrets, nat)>)
    ensures r == SecretsStep(s, secrets, p, sent)
  {
    if secrets.Failure? {
      return Stop(Failing(sent, secrets.error));
    }
    if s.hooks.cancelProof {
      return Stop(Stopped(sent));
    }
    r := Next((secrets.value, p));
  }

  /** Step 4 on the auth connection. */
  method VerifyProof(s: Setup, sec: Secrets, auth: InStream, sent: seq<seq<byte>>) returns (r: Step<nat>)
    requires auth.Valid()
    modifies auth
    ensures auth.Valid()
    ensures r == ProofCheckStep(s, sec, auth.data, old(auth.pos), sent)
    ensures r.Next? ==> auth.pos == r.value
  {
    var reply := ReadReply(auth, LOGON_PROOF);
    if reply.Failure? {
      return Stop(Failing(sent, reply.error));
    }
    ghost var p1 := auth.pos;
    var raw := auth.Read(30);
    if raw.None? {
      return Stop(Failing(sent, EndOfStream));
    }
    assert raw.value[..20] == auth.data[p1..p1 + 20];
    if raw.value[..20] != sec.m2 {
      return Stop(Failing(sent, "Server proof mismatch"));
    }
    if s.hooks.cancelRealms {
      return Stop(Stopped(sent));
    }
    r := Next(auth.pos);
  }

  /** Steps 5 and 6 on the auth connection. */
  method RequestRealms(s: Setup, auth: InStream, sent: seq<seq<byte>>) returns (r: Step<Realm>)
    requires auth.Valid()
    modifies auth
    ensures auth.Valid()
    ensures r == RealmStep(s, auth.data, old(auth.pos), sent)
  {
    var realms := ReadRealmList(auth);
    if realms.Failure? {
      return Stop(Failing(sent, realms.error));
    }
    if realms.value == [] {
      return Stop(Failing(sent, NoRealms));
    }
    var selected := realms.value[0];
    if s.hooks.select.Some? {
      selected := s.hooks.select.value;
    }
    if s.hooks.cancelClose {
      return Stop(Run(Cancelled, sent, [], s.hooks.closeAuth, None, None, 0, 0));
    }
    r := Next(selected);
  }

  /** Step 7 on the world connection: the challenge read in the clear, the session packet built. */
  method ConnectWorld(s: Setup, sec: Secrets, sent: seq<seq<byte>>, realm: Realm, world: InStream) returns (r: Step<(seq<byte>, nat)>)
    requires world.Valid()
    modifies world
    ensures world.Valid()
    ensures r == WorldStep(s, sec, sent, realm, world.data, old(world.pos))
    ensures r.Next? ==> world.pos == r.value.1
    ensures r.Stop? && r.run.outcome.Cancelled? ==> world.pos == r.run.worldPos
  {
    var challenge := ReadChallengeFrame(s, sec, sent, realm, world);
    if challenge.None? {
      return Stop(WorldRun(s, sent, realm, Failed(EndOfStream), [], None, 0, 0));
    }
    r := AnswerChallenge(s, sec, sent, realm, challenge.value, world.pos);
  }

  /** The first frame on the world connection, read in clear, and where step 7 goes with it. */
  method ReadChallengeFrame(s: Setup, sec: Secrets, sent: seq<seq<byte>>, realm: Realm, world: InStream)
    returns (challenge: Option<Packet.Packet>)
    requires world.Valid()
    modifies world
    ensures world.Valid()
    ensures challenge.None? ==>
      WorldStep(s, sec, sent, realm, world.data, old(world.pos)) == Stop(WorldRun(s, sent, realm, Failed(EndOfStream), [], None, 0, 0))
    ensures challenge.Some? ==>
      fresh(challenge.value) && challenge.value.kind == Packet.World && challenge.value.ctr == 6 &&
      |challenge.value.data| >= 6 &&
      WorldStep(s, sec, sent, realm, world.data, old(world.pos)) ==
        SessionStep(s, sec, sent, realm, challenge.value.data, world.pos)
  {
    ghost var w, q := world.data, world.pos;
    ghost var f := ReadFrame(w[q..], KeyOf(null), 0);
    WorldStepFrame(s, sec, sent, realm, w, q, f);
    challenge := ReadWorldPacket(world, null);
  }

  /** Step 7 by the frame the world stream yields. */
  lemma WorldStepFrame(s: Setup, sec: Secrets, sent: seq<seq<byte>>, realm: Realm, w: seq<byte>, q: nat, f: FrameRead)
    requires q <= |w| && f == ReadFrame(w[q..], KeyOf(null), 0)
    ensures f.Eof? ==> WorldStep(s, sec, sent, realm, w, q) == Stop(WorldRun(s, sent, realm, Failed(EndOfStream), [], None, 0, 0))
    ensures f.Frame? ==> WorldStep(s, sec, sent, realm, w, q) == SessionStep(s, sec, sent, realm, f.packet, q + f.consumed)
  {
  }

  /** The challenge packet checked, its seed read and the session packet built and sent. */
  method AnswerChallenge(s: Setup, sec: Secrets, sent: seq<seq<byte>>, realm: Realm, pkt: Packet.Packet, next: nat)
    returns (r: Step<(seq<byte>, nat)>)
    requires pkt.kind == Packet.World && pkt.ctr == 6 && |pkt.data| >= 6
    modifies pkt
    ensures r == SessionStep(s, sec, sent, realm, old(pkt.data), next)
    ensures r.Stop? && r.run.outcome.Cancelled? ==> r.run.worldPos == next
  {
    var op := pkt.GetOpcode();
    if op != Opcodes.SMSG_AUTH_CHALLENGE {
      return Stop(WorldRun(s, sent, realm, Failed("Got wrong opcode " + Decimal(op)), [], None, 0, 0));
    }
    if |pkt.data| < 46 {
      return Stop(WorldRun(s, sent, realm, Failed(ShortPacket), [], None, 0, 0));
    }
    var session := BuildSession(s, sec, realm, pkt);
    if s.hooks.cancelSession {
      return Stop(WorldRun(s, sent, realm, Cancelled, [], None, next, 0));
    }
    var wire := SendSession(session);
    HeaderReplaced(Opcodes.CMSG_AUTH_SESSION, SessionPayload(s.crypto.sha1, s.username, realm.id, FromLE(pkt.data[10..14]), sec.key));
    r := Next((wire, next));
  }

  /** `Prepare` without a cipher puts the size in place of the two zero bytes. */
  lemma HeaderReplaced(op: nat, payload: seq<byte>)
    ensures var d := [0, 0] + LE(op, 4) + payload;
      Packet.SizeField(|d|) + d[2..] == Packet.SizeField(6 + |payload|) + LE(op, 4) + payload
  {
    var d := [0, 0] + LE(op, 4) + payload;
    assert d[2..] == LE(op, 4) + payload;
  }

  /** The challenge's seed read and the session packet built from it. */
  method BuildSession(s: Setup, sec: Secrets, realm: Realm, pkt: Packet.Packet) returns (session: Packet.Packet)
    requires pkt.ctr == 6 && |pkt.data| >= 46
    modifies pkt
    ensures pkt.data == old(pkt.data) && fresh(session) && session.kind == Packet.World
    ensures session.data == [0, 0] + LE(Opcodes.CMSG_AUTH_SESSION, 4)
      + SessionPayload(s.crypto.sha1, s.username, realm.id, FromLE(pkt.data[10..14]), sec.key)
  {
    var seed := ReadChallengeSeed(pkt);
    session := BuildAuthSession(s.crypto.sha1, s.username, realm.id, seed, sec.key);
  }

  /** `Send` of the session packet: no cipher is set yet. */
  method SendSession(session: Packet.Packet) returns (wire: seq<byte>)
    requires session.kind == Packet.World && |session.data| >= 6
    modifies session
    ensures wire == Packet.SizeField(|old(session.data)|) + old(session.data)[2..]
  {
    session.Prepare(null);
    wire := session.data;
  }

  /** The four fields of `SMSG_AUTH_CHALLENGE`; only the seed is used. */
  method ReadChallengeSeed(pkt: Packet.Packet) returns (seed: nat)
    requires pkt.ctr == 6 && |pkt.data| >= 46
    modifies pkt
    ensures pkt.data == old(pkt.data) && seed == FromLE(pkt.data[10..14])
  {
    var one := pkt.Read(4);
    seed := pkt.Read(4);
    var seed1 := pkt.ReadBytes(16);
    var seed2 := pkt.ReadBytes(16);
  }

  method AwaitResponse(s: Setup, sec: Secrets, sent: seq<seq<byte>>, realm: Realm, wire: seq<byte>, world: InStream)
    returns (run: Run, enc: Arc4?, dec: Arc4?)
    requires world.Valid()
    modifies world
    ensures world.Valid()
    ensures run == ResponseStep(s, sec, sent, realm, wire, world.data, old(world.pos))
    ensures Ready(s, run, world, dec) && (enc != null ==> fresh(enc)) && (dec != null ==> fresh(dec))
  {
    var e, d := SetEncryptionKey(s.crypto, sec.key);
    enc, dec := e, d;
    ResponseStepFrame(s, sec, sent, realm, wire, world.data, world.pos, d);
    var response := ReadWorldPacket(world, d);
    if response.None? {
      return WorldRun(s, sent, realm, Failed(EndOfStream), [wire], Some(sec.key), 0, 0), enc, dec;
    }
    run := CheckWorldResponse(s, sec, sent, realm, wire, response.value, world.pos, d.pos);
  }

  /** Step 7 by the frame the world stream yields through the receive cipher. */
  lemma ResponseStepFrame(s: Setup, sec: Secrets, sent: seq<seq<byte>>, realm: Realm, wire: seq<byte>, w: seq<byte>, q: nat, d: Arc4)
    requires q <= |w| && d.keystream == ReceiveStream(s.crypto, sec.key) && d.pos == Drop
    ensures var f := ReadFrame(w[q..], KeyOf(d), d.pos);
      ResponseStep(s, sec, sent, realm, wire, w, q) ==
        if f.Eof? then WorldRun(s, sent, realm, Failed(EndOfStream), [wire], Some(sec.key), 0, 0)
        else ResponseCheck(s, sec, sent, realm, wire, f.packet, q + f.consumed, d.pos + f.decrypted)
  {
  }

  /** Step 8 on the response packet. */
  method CheckWorldResponse(s: Setup, sec: Secrets, sent: seq<seq<byte>>, realm: Realm, wire: seq<byte>, pkt: Packet.Packet,
                            next: nat, decPos: nat) returns (run: Run)
    requires pkt.kind == Packet.World && pkt.ctr == 6 && |pkt.data| >= 6
    modifies pkt
    ensures run == ResponseCheck(s, sec, sent, realm, wire, old(pkt.data), next, decPos)
  {
    var key := Some(sec.key);
    if pkt.GetOpcode() != Opcodes.SMSG_AUTH_RESPONSE {
      return WorldRun(s, sent, realm, Failed("Got wrong opcode " + Decimal(Opcodes.SMSG_AUTH_CHALLENGE)), [wire], key, 0, 0);
    }
    if |pkt.data| < 17 {
      return WorldRun(s, sent, realm, Failed(ShortPacket), [wire], key, 0, 0);
    }
    var raw := pkt.ReadBytes(11);
    var checked := CheckResponse(ResponseOf(raw));
    if checked.Failure? {
      return WorldRun(s, sent, realm, Failed(checked.error), [wire], key, 0, 0);
    }
    // The character-list request built here is never sent, and a handler's cancel changes nothing.
    run := WorldRun(s, sent, realm, Done, [wire], key, next, decPos);
  }

  // ---------------------------------------------------------------------------
  // What the handshake guarantees

  /** The session key an honest server derives from its own S = (A·v^u)^b' mod N. */
  function ServerSessionKey(sha1: seq<byte> -> Digest, c: ServerChallenge, username: seq<byte>, password: seq<byte>,
                            A: nat, b': nat): (k: seq<byte>)
    requires WellSized(c) && FromLE(c.n) > 0
    ensures |k| == 40
  {
    var g, n := c.g as nat, FromLE(c.n);
    var x := PasswordExponent(sha1, c.salt, username, password);
    FromLEBound(c.n);
    SessionKey(sha1, Srp.ServerSecret(g, n, x, b', A, Scrambler(sha1, A, FromLE(c.b))))
  }

  /**
   * Against a server that knows the password and sent B = k·v + g^b', the
   * client ends up with the server's session key, so the server accepts the
   * client's M1 and the client accepts the server's M2.
   */
  lemma HonestServerAgrees(sha1: seq<byte> -> Digest, c: ServerChallenge, username: seq<byte>, password: seq<byte>, b': nat)
    requires WellSized(c) && FromLE(c.n) > 0
    requires FromLE(c.b) == Srp.ServerPublic(c.g as nat, FromLE(c.n), PasswordExponent(sha1, c.salt, username, password), b')
    requires DeriveSecrets(sha1, c, username, password).Success?
    ensures var sec := DeriveSecrets(sha1, c, username, password).value;
      var key := ServerSessionKey(sha1, c, username, password, sec.A, b');
      sec.key == key && sec.m1 == ClientProof(sha1, c, username, sec.A, key) &&
      sec.m2 == ServerProof(sha1, sec.A, sec.m1, key)
  {
    var sec := DeriveSecrets(sha1, c, username, password).value;
    var g, n, b := c.g as nat, FromLE(c.n), FromLE(c.b);
    var x := PasswordExponent(sha1, c.salt, username, password);
    var u := Scrambler(sha1, sec.A, b);
    Srp.SharedSecret(g, n, x, Srp.PrivateExponent(), b', u);
    assert ClientS(sha1, c, username, password, sec.A) == Srp.ServerSecret(g, n, x, b', sec.A, u);
  }

  /** An honest server's proof reply passes step 4: the realm list is requested next unless a handler cancels. */
  lemma HonestProofAccepted(s: Setup, sec: Secrets, d: seq<byte>, p: nat, sent: seq<seq<byte>>)
    requires p + 32 <= |d| && d[p] == LOGON_PROOF && d[p + 1] == 0 && d[p + 2..p + 22] == sec.m2
    ensures ProofCheckStep(s, sec, d, p, sent) == if s.hooks.cancelRealms then Stop(Stopped(sent)) else Next(p + 32)
  {
    assert ReplyAt(d, p, LOGON_PROOF) == Success(p + 2);
  }

  /** Any other 20 bytes in the reply end the handshake with "Server proof mismatch". */
  lemma WrongProofRejected(s: Setup, sec: Secrets, d: seq<byte>, p: nat, sent: seq<seq<byte>>)
    requires p + 32 <= |d| && d[p] == LOGON_PROOF && d[p + 1] == 0 && d[p + 2..p + 22] != sec.m2
    ensures ProofCheckStep(s, sec, d, p, sent) == Stop(Failing(sent, "Server proof mismatch"))
  {
    assert ReplyAt(d, p, LOGON_PROOF) == Success(p + 2);
  }

  /** What the world server sends as a frame: its header, encrypted when a key is set, and the payload. */
  function ServerFrame(opcode: nat, payload: seq<byte>, key: Option<nat -> byte>, off: nat): seq<byte>
    requires opcode < U16 && |payload| + 2 < 0x80_0000
  {
    Crypt(key, off, ServerHeader(opcode, |payload|)) + payload
  }

  /** The opcode of a packet as the client stores it. */
  lemma ReceivedPacketOpcode(op: nat, payload: seq<byte>)
    requires op < U32
    ensures var pkt := ReceivedPacket(op, payload);
      |pkt| == 6 + |payload| && FromLE(pkt[2..6]) == op && pkt[6..] == payload
  {
    var pkt := ReceivedPacket(op, payload);
    assert pkt[2..6] == LE(op, 4);
    assert pkt[6..] == payload;
    Pow256Widths();
    FromLEofLE(op, 4);
  }

  /**
   * An `SMSG_AUTH_CHALLENGE` frame in the clear is answered with the session
   * packet built from the seed in bytes 4..7 of its payload.
   */
  lemma ChallengeAnswered(s: Setup, sec: Secrets, sent: seq<seq<byte>>, realm: Realm, payload: seq<byte>, rest: seq<byte>)
    requires 40 <= |payload| < 0x1000 && !s.hooks.cancelSession
    ensures var frame := ServerFrame(Opcodes.SMSG_AUTH_CHALLENGE, payload, None, 0);
      WorldStep(s, sec, sent, realm, frame + rest, 0) ==
        Next((SessionWire(s.crypto.sha1, s.username, realm.id, FromLE(payload[4..8]), sec.key), |frame|))
  {
    var h := ServerHeader(Opcodes.SMSG_AUTH_CHALLENGE, |payload|);
    var frame := ServerFrame(Opcodes.SMSG_AUTH_CHALLENGE, payload, None, 0);
    FrameRoundTrip(Opcodes.SMSG_AUTH_CHALLENGE, payload, None, 0, rest);
    assert (frame + rest)[0..] == Crypt(None, 0, h) + payload + rest;
    var pkt := ReceivedPacket(Opcodes.SMSG_AUTH_CHALLENGE, payload);
    ReceivedPacketOpcode(Opcodes.SMSG_AUTH_CHALLENGE, payload);
    assert pkt[10..14] == payload[4..8];
  }

  /** An encrypted `SMSG_AUTH_RESPONSE` frame completes the handshake exactly when its detail is `AUTH_OK`. */
  lemma ResponseDecides(s: Setup, sec: Secrets, sent: seq<seq<byte>>, realm: Realm, wire: seq<byte>, resp: WorldAuthResponse, rest: seq<byte>)
    requires ResponseFits(resp)
    ensures var frame := ServerFrame(Opcodes.SMSG_AUTH_RESPONSE, ResponseBytes(resp), Some(ReceiveStream(s.crypto, sec.key)), Drop);
      var r := ResponseStep(s, sec, sent, realm, wire, frame + rest, 0);
      (resp.detail == AUTH_OK ==> r == WorldRun(s, sent, realm, Done, [wire], Some(sec.key), |frame|, Drop + 4)) &&
      (resp.detail != AUTH_OK ==>
         r.outcome == Failed("World authentication failed: " + Decimal(resp.detail as nat)) && r.worldSent == [wire])
  {
    var key := Some(ReceiveStream(s.crypto, sec.key));
    var payload := ResponseBytes(resp);
    var frame := ServerFrame(Opcodes.SMSG_AUTH_RESPONSE, payload, key, Drop);
    FrameRoundTrip(Opcodes.SMSG_AUTH_RESPONSE, payload, key, Drop, rest);
    assert (frame + rest)[0..] == Crypt(key, Drop, ServerHeader(Opcodes.SMSG_AUTH_RESPONSE, 11)) + payload + rest;
    var pkt := ReceivedPacket(Opcodes.SMSG_AUTH_RESPONSE, payload);
    ReceivedPacketOpcode(Opcodes.SMSG_AUTH_RESPONSE, payload);
    assert pkt[6..17] == payload;
    ResponseRoundTrip(resp);
  }

  /**
   * A completed handshake sent the auth server exactly the challenge, the
   * proof and the realm-list request, sent the world server exactly one
   * packet, keyed the ciphers with a 40-byte session key, and went through
   * every hook that could have cancelled it.
   */
  lemma CompletedRun(s: Setup, d: seq<byte>, p: nat, w: seq<byte>, q: nat)
    requires s.ip < U32 && p <= |d| && q <= |w|
    requires Handshake(s, d, p, w, q).outcome.Done?
    ensures var r := Handshake(s, d, p, w, q);
      |r.authSent| == 3 && r.authSent[0] == ClientChallenge(s.username, s.ip) && r.authSent[2] == RealmListRequest &&
      |r.worldSent| == 1 && r.key.Some? && |r.key.value| == 40 && r.realm.Some? &&
      (s.hooks.select.Some? ==> r.realm == s.hooks.select) && r.authClosed == s.hooks.closeAuth &&
      !s.hooks.cancelChallenge && !s.hooks.cancelProof && !s.hooks.cancelRealms && !s.hooks.cancelClose && !s.hooks.cancelSession
  {
  }

  /**
   * A handler that cancels at any step before the session packet leaves
   * means nothing reaches the world server, no cipher is keyed and the
   * handshake does not complete.
   */
  lemma CancelKeepsWorldQuiet(s: Setup, d: seq<byte>, p: nat, w: seq<byte>, q: nat)
    requires s.ip < U32 && p <= |d| && q <= |w|
    requires s.hooks.cancelChallenge || s.hooks.cancelProof || s.hooks.cancelRealms || s.hooks.cancelClose || s.hooks.cancelSession
    ensures var r := Handshake(s, d, p, w, q);
      !r.outcome.Done? && r.worldSent == [] && r.key == None
  {
  }

  /** A handler cancelling on the auth connection stops the run before any realm is connected to. */
  lemma CancelBeforeWorld(s: Setup, d: seq<byte>, p: nat, w: seq<byte>, q: nat)
    requires s.ip < U32 && p <= |d| && q <= |w|
    requires s.hooks.cancelChallenge || s.hooks.cancelProof || s.hooks.cancelRealms || s.hooks.cancelClose
    ensures Handshake(s, d, p, w, q).realm == None
  {
  }
}
