/**
 * `Bot::Connect` and `Bot::WorldPacketLoop`: a bot drops its old connection,
 * runs the login handshake and then hands every world packet it can read to
 * the `OnWorldPacket` handlers until a read fails. The handlers are reduced
 * to what reaches the loop: the message of an exception that escapes them,
 * or none.
 */
module BotConnection {
  import opened Wrappers
  import opened Bytes
  import opened Stream
  import opened Cipher
  import opened Framing
  import opened Handshake

  /** The `OnWorldPacket` handlers of a bot, by what escapes them for one packet. */
  type Handler = seq<byte> -> Option<string>

  /** Where the receive cipher stands; without one the header is taken as received. */
  function Offset(dec: Arc4?): nat
    reads dec
  {
    if dec == null then 0 else dec.pos
  }

  /** The packets the loop hands to the handlers: every whole frame of the input, in order, up to the first that cannot be read. */
  function Served(input: seq<byte>, key: Option<nat -> byte>, off: nat): seq<seq<byte>>
    decreases |input|, 1
  {
    ServedFrom(input, key, off, ReadFrame(input, key, off))
  }

  /** The packets served once the first read of the input has given `f`. */
  function ServedFrom(input: seq<byte>, key: Option<nat -> byte>, off: nat, f: FrameRead): seq<seq<byte>>
    requires f.Frame? ==> 0 < f.consumed <= |input|
    decreases |input|, 0
  {
    if f.Eof? then [] else [f.packet] + Served(input[f.consumed..], key, off + f.decrypted)
  }

  /** The error lines the loop logs: the message of each packet whose handlers threw, in packet order. */
  function Failures(packets: seq<seq<byte>>, handler: Handler): (r: seq<string>)
    ensures |r| <= |packets|
  {
    if packets == [] then []
    else (match handler(packets[0]) case Some(e) => [e] case None => []) + Failures(packets[1..], handler)
  }

  lemma {:induction false} FailuresSnoc(packets: seq<seq<byte>>, p: seq<byte>, handler: Handler)
    ensures Failures(packets + [p], handler) ==
      Failures(packets, handler) + (match handler(p) case Some(e) => [e] case None => [])
  {
    if packets != [] {
      assert (packets + [p])[1..] == packets[1..] + [p];
      FailuresSnoc(packets[1..], p, handler);
    }
  }

  /** A message is logged exactly when the handlers threw it for some packet served. */
  lemma {:induction false} FailuresMeaning(packets: seq<seq<byte>>, handler: Handler, e: string)
    ensures e in Failures(packets, handler) <==> exists i :: 0 <= i < |packets| && handler(packets[i]) == Some(e)
  {
    if packets != [] {
      FailuresMeaning(packets[1..], handler, e);
      if e in Failures(packets[1..], handler) {
        var i :| 0 <= i < |packets[1..]| && handler(packets[1..][i]) == Some(e);
        assert handler(packets[i + 1]) == Some(e);
      }
      if exists i :: 0 <= i < |packets| && handler(packets[i]) == Some(e) {
        var i :| 0 <= i < |packets| && handler(packets[i]) == Some(e);
        if i > 0 {
          assert handler(packets[1..][i - 1]) == Some(e);
        }
      }
    }
  }

  /** `Bot::WorldPacketLoop`: read, hand to the handlers, log what they throw; stop at the first failed read. */
  method WorldPacketLoop(world: InStream, dec: Arc4?, handler: Handler) returns (served: seq<seq<byte>>, log: seq<string>)
    requires world.Valid()
    modifies world, dec
    ensures world.Valid() && world.pos == |world.data|
    ensures served == Served(world.data[old(world.pos)..], KeyOf(dec), old(Offset(dec)))
    ensures log == Failures(served, handler)
  {
    served, log := [], [];
    ghost var key := KeyOf(dec);
    ghost var all := Served(world.data[world.pos..], key, Offset(dec));
    while true
      invariant world.Valid()
      invariant served + Served(world.data[world.pos..], key, Offset(dec)) == all
      invariant log == Failures(served, handler)
      decreases |world.data| - world.pos
    {
      var pkt := ServeNext(world, dec);
      if pkt.None? {
        return;
      }
      log := Handle(served, log, pkt.value, handler);
      AppendAssoc(served, [pkt.value], Served(world.data[world.pos..], key, Offset(dec)));
      served := served + [pkt.value];
    }
  }

  /** One packet handed to the handlers: what escapes them is added to the log. */
  method Handle(served: seq<seq<byte>>, log: seq<string>, pkt: seq<byte>, handler: Handler) returns (log': seq<string>)
    requires log == Failures(served, handler)
    ensures log' == Failures(served + [pkt], handler)
  {
    var thrown := handler(pkt);
    FailuresSnoc(served, pkt, handler);
    log' := log;
    if thrown.Some? {
      log' := log + [thrown.value];
    }
  }

  /** One read of the loop: the next packet served, or none when the read fails. */
  method ServeNext(world: InStream, dec: Arc4?) returns (pkt: Option<seq<byte>>)
    requires world.Valid()
    modifies world, dec
    ensures world.Valid() && old(world.pos) <= world.pos
    ensures pkt.None? ==> world.pos == |world.data| && Served(world.data[old(world.pos)..], KeyOf(dec), old(Offset(dec))) == []
    ensures pkt.Some? ==>
      old(world.pos) < world.pos &&
      Served(world.data[old(world.pos)..], KeyOf(dec), old(Offset(dec))) ==
        [pkt.value] + Served(world.data[world.pos..], KeyOf(dec), Offset(dec))
  {
    ghost var p0, off := world.pos, Offset(dec);
    ghost var f := ReadFrame(world.data[p0..], KeyOf(dec), off);
    var p := ReadWorldPacket(world, dec);
    if p.None? {
      ServedStep(world.data[p0..], KeyOf(dec), off, f);
      return None;
    }
    pkt := Some(p.value.data);
    ServedAfterRead(world.data, p0, world.pos, KeyOf(dec), off, Offset(dec), f);
  }

  /** A read from `p0` that yields a frame leaves the stream at `p1`, and the rest is served from there. */
  lemma ServedAfterRead(data: seq<byte>, p0: nat, p1: nat, key: Option<nat -> byte>, off: nat, off1: nat, f: FrameRead)
    requires p0 <= |data| && f == ReadFrame(data[p0..], key, off) && f.Frame?
    requires p1 == p0 + f.consumed && off1 == if key.None? then 0 else off + f.decrypted
    ensures p0 < p1 <= |data|
    ensures Served(data[p0..], key, off) == [f.packet] + Served(data[p1..], key, off1)
  {
    SliceOfSlice(data, p0, p1);
    ServedAfterFrame(data[p0..], key, off, f, data[p1..]);
    if key.None? {
      ServedInClear(data[p1..], off + f.decrypted);
    }
  }

  /** Without a cipher the keystream position plays no part in a read. */
  lemma ReadFrameInClear(input: seq<byte>, off: nat)
    ensures ReadFrame(input, None, off) == ReadFrame(input, None, 0)
  {
    if |input| >= 1 {
      assert HeaderLen(input, None, off) == HeaderLen(input, None, 0);
    }
  }

  lemma {:induction false} ServedInClear(input: seq<byte>, off: nat)
    ensures Served(input, None, off) == Served(input, None, 0)
    decreases |input|
  {
    ReadFrameInClear(input, off);
    match ReadFrame(input, None, 0)
    case Eof(_) =>
    case Frame(_, used, d) =>
      ServedInClear(input[used..], off + d);
      ServedInClear(input[used..], d);
  }

  /** Served, one frame unfolded. */
  lemma ServedStep(input: seq<byte>, key: Option<nat -> byte>, off: nat, f: FrameRead)
    requires f == ReadFrame(input, key, off)
    ensures f.Eof? ==> Served(input, key, off) == []
    ensures f.Frame? ==> Served(input, key, off) == [f.packet] + Served(input[f.consumed..], key, off + f.decrypted)
  {
  }

  lemma SliceOfSlice<T>(s: seq<T>, i: nat, j: nat)
    requires i <= j <= |s|
    ensures s[i..][j - i..] == s[j..]
  {
  }

  // ---------------------------------------------------------------------------
  // What the server sends once the bot is logged in

  /** A packet as a server sends it: a 16-bit opcode and a payload the 3-byte size field can carry. */
  datatype Message = Message(opcode: nat, payload: seq<byte>)
  {
    predicate Sendable()
    {
      opcode < U16 && |payload| + 2 < 0x80_0000
    }
  }

  /** The frames of the messages, each header encrypted at the keystream position the previous headers leave. */
  function Wire(msgs: seq<Message>, key: Option<nat -> byte>, off: nat): seq<byte>
    requires forall i :: 0 <= i < |msgs| ==> msgs[i].Sendable()
  {
    if msgs == [] then []
    else
      var m := msgs[0];
      assert msgs[0].Sendable();
      ServerFrame(m.opcode, m.payload, key, off) + Wire(msgs[1..], key, off + HeaderSize(m))
  }

  /** The packets the client builds from the messages. */
  function Delivered(msgs: seq<Message>): (r: seq<seq<byte>>)
    ensures |r| == |msgs|
  {
    if msgs == [] then [] else [ReceivedPacket(msgs[0].opcode, msgs[0].payload)] + Delivered(msgs[1..])
  }

  /** The loop serves exactly the packets the server sent, in order, whatever their header lengths. */
  lemma {:induction false} ServedOfWire(msgs: seq<Message>, key: Option<nat -> byte>, off: nat)
    requires forall i :: 0 <= i < |msgs| ==> msgs[i].Sendable()
    ensures Served(Wire(msgs, key, off), key, off) == Delivered(msgs)
  {
    if msgs != [] {
      var next := off + HeaderSize(msgs[0]);
      ServedOfWireCons(msgs, key, off);
      ServedOfWire(msgs[1..], key, next);
    }
  }

  /** The bytes of a message's header. */
  function HeaderSize(m: Message): nat
    requires m.Sendable()
  {
    |ServerHeader(m.opcode, |m.payload|)|
  }

  /** The first message of the wire is served first, then the wire of the others. */
  lemma ServedOfWireCons(msgs: seq<Message>, key: Option<nat -> byte>, off: nat)
    requires msgs != [] && forall i :: 0 <= i < |msgs| ==> msgs[i].Sendable()
    ensures Served(Wire(msgs, key, off), key, off) ==
      [ReceivedPacket(msgs[0].opcode, msgs[0].payload)] + Served(Wire(msgs[1..], key, off + HeaderSize(msgs[0])), key, off + HeaderSize(msgs[0]))
  {
    var m := msgs[0];
    assert m.Sendable();
    var next := off + HeaderSize(m);
    var tail := Wire(msgs[1..], key, next);
    var input := Wire(msgs, key, off);
    assert input == ServerFrame(m.opcode, m.payload, key, off) + tail;
    ServedOfFrame(m.opcode, m.payload, key, off, tail, input);
  }

  /** One server frame ahead of anything: the loop serves its packet, then goes on with the rest. */
  lemma ServedOfFrame(opcode: nat, payload: seq<byte>, key: Option<nat -> byte>, off: nat, rest: seq<byte>, input: seq<byte>)
    requires opcode < U16 && |payload| + 2 < 0x80_0000
    requires input == ServerFrame(opcode, payload, key, off) + rest
    ensures Served(input, key, off) == [ReceivedPacket(opcode, payload)] + Served(rest, key, off + |ServerHeader(opcode, |payload|)|)
  {
    var h := ServerHeader(opcode, |payload|);
    var front := Crypt(key, off, h) + payload;
    FrameRoundTrip(opcode, payload, key, off, rest);
    DropFront(front, rest, input);
    ServedAfterFrame(input, key, off, Frame(ReceivedPacket(opcode, payload), |h| + |payload|, |h|), rest);
  }

  lemma DropFront(front: seq<byte>, rest: seq<byte>, input: seq<byte>)
    requires input == front + rest
    ensures input[|front|..] == rest
  {
  }

  /** A read that yields a packet and leaves `rest`: the packet is served first, then what `rest` serves. */
  lemma ServedAfterFrame(input: seq<byte>, key: Option<nat -> byte>, off: nat, f: FrameRead, rest: seq<byte>)
    requires f == ReadFrame(input, key, off) && f.Frame? && input[f.consumed..] == rest
    ensures Served(input, key, off) == [f.packet] + Served(rest, key, off + f.decrypted)
  {
    ServedStep(input, key, off, f);
  }

  // ---------------------------------------------------------------------------
  // `Bot::Connect`

  /** What one connection attempt did: the handshake, the packets served afterwards, the error lines logged. */
  datatype Session = Session(run: Run, served: seq<seq<byte>>, log: seq<string>)

  /** Account names are byte strings; the log shows each byte as the character with that code. */
  function Chars(b: seq<byte>): (r: string)
    ensures |r| == |b| && forall i :: 0 <= i < |b| ==> r[i] as int == b[i] as int
  {
    seq(|b|, i requires 0 <= i < |b| => b[i] as char)
  }

  /** The error line for a handshake that threw; the format has two spaces after "in". */
  function LoginError(username: seq<byte>, e: string): string
  {
    "Error logging in  bot " + Chars(username) + ": " + e
  }

  /**
   * The reference for `Connect`: a handshake that throws is logged and ends
   * the attempt. Any other run, a cancelled one included, goes on to the
   * packet loop. After a completed run the loop reads through the receive
   * cipher. After a cancel with the world connection open it reads in the
   * clear. After a cancel before that there is no world socket: the first
   * read throws and the loop serves nothing.
   */
  function Connected(s: Setup, d: seq<byte>, p: nat, w: seq<byte>, q: nat, handler: Handler): Session
    requires s.ip < U32 && p <= |d| && q <= |w|
  {
    AfterLogin(s, Handshake.Handshake(s, d, p, w, q), w, handler)
  }

  /** What `Connect` does once the handshake has ended with `run`. */
  function AfterLogin(s: Setup, run: Run, w: seq<byte>, handler: Handler): Session
    requires run.outcome.Done? ==> run.key.Some? && run.worldPos <= |w|
    requires run.outcome.Cancelled? && run.realm.Some? ==> run.worldPos <= |w|
  {
    if run.outcome.Failed? then Session(run, [], [LoginError(s.username, run.outcome.error)])
    else
      var served :=
        if run.outcome.Done? then Served(w[run.worldPos..], Some(ReceiveStream(s.crypto, run.key.value)), run.decPos)
        else if run.realm.Some? then Served(w[run.worldPos..], None, 0)
        else [];
      Session(run, served, Failures(served, handler))
  }

  /**
   * `Bot::Connect` after `DisconnectNow`, which leaves the bot without
   * ciphers: the handshake, then the loop. The ciphers the bot ends with
   * are returned.
   */
  method Connect(s: Setup, auth: InStream, world: InStream, handler: Handler) returns (r: Session, enc: Arc4?, dec: Arc4?)
    requires s.ip < U32 && auth.Valid() && world.Valid() && auth != world
    modifies auth, world
    ensures r == Connected(s, auth.data, old(auth.pos), world.data, old(world.pos), handler)
  {
    var run;
    run, enc, dec := AuthenticateBot(s, auth, world);
    if run.outcome.Failed? {
      return Session(run, [], [LoginError(s.username, run.outcome.error)]), enc, dec;
    }
    if run.outcome.Cancelled? && run.realm.None? {
      return Session(run, [], []), enc, dec;
    }
    var served, log := WorldPacketLoop(world, dec, handler);
    r := Session(run, served, log);
  }

  // ---------------------------------------------------------------------------
  // Properties of a connection attempt

  /** After a completed login the bot serves every packet the world server sends, in order, and logs what the handlers throw. */
  lemma ServesAfterLogin(s: Setup, run: Run, w: seq<byte>, handler: Handler, msgs: seq<Message>)
    requires run.outcome.Done? && run.key.Some? && run.worldPos <= |w|
    requires forall i :: 0 <= i < |msgs| ==> msgs[i].Sendable()
    requires w[run.worldPos..] == Wire(msgs, Some(ReceiveStream(s.crypto, run.key.value)), run.decPos)
    ensures AfterLogin(s, run, w, handler).served == Delivered(msgs)
    ensures AfterLogin(s, run, w, handler).log == Failures(Delivered(msgs), handler)
  {
    ServedOfWire(msgs, Some(ReceiveStream(s.crypto, run.key.value)), run.decPos);
  }

  /** A failed login logs exactly one line, naming the bot and the error, and serves nothing. */
  lemma FailureLogged(s: Setup, run: Run, w: seq<byte>, handler: Handler)
    requires run.outcome.Failed?
    ensures var c := AfterLogin(s, run, w, handler);
      c.served == [] && |c.log| == 1 &&
      c.log[0][..22] == "Error logging in  bot " &&
      c.log[0][22..22 + |s.username|] == Chars(s.username) &&
      c.log[0][22 + |s.username|..] == ": " + run.outcome.error
  {
    var line := "Error logging in  bot " + Chars(s.username) + ": " + run.outcome.error;
    assert line == "Error logging in  bot " + (Chars(s.username) + (": " + run.outcome.error));
  }

  /** A handler cancelling before the world connection is opened leaves the bot serving nothing and logging nothing. */
  lemma EarlyCancelServesNothing(s: Setup, d: seq<byte>, p: nat, w: seq<byte>, q: nat, handler: Handler)
    requires s.ip < U32 && p <= |d| && q <= |w|
    requires s.hooks.cancelChallenge || s.hooks.cancelProof || s.hooks.cancelRealms || s.hooks.cancelClose
    ensures var run := Handshake.Handshake(s, d, p, w, q);
      run.outcome.Failed? || Connected(s, d, p, w, q, handler) == Session(run, [], [])
  {
    CancelBeforeWorld(s, d, p, w, q);
  }

  /**
   * A handler cancelling the session packet leaves the world connection open
   * without ciphers: the bot goes on serving what follows the challenge, with
   * the headers taken as received.
   */
  lemma CancelledSessionServesInClear(s: Setup, d: seq<byte>, p: nat, w: seq<byte>, q: nat, handler: Handler)
    requires s.ip < U32 && p <= |d| && q <= |w|
    requires s.hooks.cancelSession
    ensures var run := Handshake.Handshake(s, d, p, w, q);
      run.key == None && run.worldSent == [] &&
      (run.outcome.Cancelled? && run.realm.Some? ==> Connected(s, d, p, w, q, handler).served == Served(w[run.worldPos..], None, 0))
  {
    CancelKeepsWorldQuiet(s, d, p, w, q);
  }
}
