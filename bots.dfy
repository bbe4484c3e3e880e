/**
 * The bot manager and its threads, as one sequential state machine: which
 * thread a new bot goes to, the per-thread count of live bots, the queues
 * of logins and removals a thread drains on its next tick, and the reload
 * that rebuilds every bot's behaviour. Threads are referred to by index and
 * bots by the key they are stored under; sockets, ciphers and behaviour
 * trees are reduced to whether they exist.
 */
module Bots {
  import opened Wrappers
  import opened Bytes

  type Name = seq<byte>

  datatype Bot = Bot(
    thread: nat, username: Name, password: Name, events: string, authserver: string,
    disconnected: bool, authOpen: bool, worldOpen: bool, ciphers: bool, behavior: bool)

  datatype Thread = Thread(queuedLogins: seq<Name>, queuedRemoves: seq<Name>, botsWithAI: set<Name>, botCount: int, shouldReload: bool, running: bool)

  /** `Bot::Bot`: account name and password upper-cased, connected, nothing open yet. */
  function NewBot(thread: nat, username: Name, password: Name, events: string, authserver: string): (b: Bot)
    ensures b.thread == thread && b.events == events && b.authserver == authserver && !b.disconnected
    ensures !b.authOpen && !b.worldOpen && !b.ciphers && !b.behavior
    ensures b.username == Upper(username) && b.password == Upper(password)
  {
    Bot(thread, Upper(username), Upper(password), events, authserver, false, false, false, false, false)
  }

  /** A stored account name holds no lower-case letter, and upper-casing it again changes nothing. */
  lemma NewBotNameUpper(thread: nat, username: Name, password: Name, events: string, authserver: string)
    ensures var b := NewBot(thread, username, password, events, authserver);
      |b.username| == |username| && Upper(b.username) == b.username &&
      forall i :: 0 <= i < |b.username| ==> !('a' as byte <= b.username[i] <= 'z' as byte)
  {
    UpperIdempotent(username);
  }

  /** `DisconnectNow`: both sockets closed and both ciphers dropped. */
  function DisconnectNow(b: Bot): (r: Bot)
    ensures !r.authOpen && !r.worldOpen && !r.ciphers
    ensures r.(authOpen := b.authOpen, worldOpen := b.worldOpen, ciphers := b.ciphers) == b
  {
    b.(authOpen := false, worldOpen := false, ciphers := false)
  }
  /** The event sets a thread's profile manager has registered, by name, each with whether it has a behaviour root. */
  type Named = map<string, bool>

  predicate Rooted(named: Named, events: string)
  {
    events in named && named[events]
  }

  /** What `LoadScripts` leaves behind: the bot, and whether `GetEvents` threw out of it. */
  datatype Loaded = Loaded(bot: Bot, thrown: bool)

  /**
   * `LoadScripts`: the behaviour is dropped first; then an event set the
   * profile manager has not registered makes `GetEvents` throw, and otherwise
   * the bot gets a behaviour exactly when the set has a root.
   */
  function LoadScripts(b: Bot, named: Named): (r: Loaded)
    ensures r.thrown <==> b.events !in named
    ensures r.bot.behavior <==> Rooted(named, b.events)
    ensures r.bot.(behavior := b.behavior) == b
  {
    if b.events in named then Loaded(b.(behavior := named[b.events]), false)
    else Loaded(b.(behavior := false), true)
  }

  /** The auth server a queued login connects to, as written: always the literal loopback address. */
  function ConnectTargetAsWritten(b: Bot): string
  {
    "127.0.0.1"
  }

  /** The evidently intended target: the server the bot was started with. */
  function ConnectTarget(b: Bot): string
  {
    b.authserver
  }

  /** As written the server a bot was started with is never used. */
  lemma AuthServerIgnored(b: Bot)
    requires b.authserver != "127.0.0.1"
    ensures ConnectTargetAsWritten(b) != b.authserver && ConnectTarget(b) == b.authserver
  {
  }

  /** The live bots of a thread: connected ones. */
  ghost function Live(bots: map<Name, Bot>, t: nat): set<Name>
  {
    set k | k in bots.Keys && bots[k].thread == t && !bots[k].disconnected
  }

  lemma LiveUpdate(bots: map<Name, Bot>, k: Name, b: Bot, u: nat)
    ensures Live(bots[k := b], u) == (Live(bots, u) - {k}) + (if b.thread == u && !b.disconnected then {k} else {})
  {
  }

  /** Removing a disconnected bot leaves every thread's live set alone. */
  lemma LiveRemove(bots: map<Name, Bot>, k: Name, u: nat)
    requires k in bots && bots[k].disconnected
    ensures Live(bots - {k}, u) == Live(bots, u)
  {
  }

  /** Maps with the same keys, threads and disconnected flags have the same live sets. */
  predicate SameLiveness(a: map<Name, Bot>, b: map<Name, Bot>)
  {
    a.Keys == b.Keys && forall k :: k in a ==> a[k].thread == b[k].thread && a[k].disconnected == b[k].disconnected
  }

  lemma SameLive(a: map<Name, Bot>, b: map<Name, Bot>, u: nat)
    requires SameLiveness(a, b)
    ensures Live(a, u) == Live(b, u)
  {
  }

  /** `b` differs from `a` at most in behaviours, and only in those of thread t's bots. */
  predicate BehaviorsOnly(a: map<Name, Bot>, b: map<Name, Bot>, t: nat)
  {
    a.Keys == b.Keys &&
    forall k :: k in a ==> b[k].(behavior := a[k].behavior) == a[k] && (a[k].thread != t ==> b[k] == a[k])
  }

  lemma BehaviorsOnlyStep(a: map<Name, Bot>, t: nat, k: Name, b: Bot)
    requires k in a && b.(behavior := a[k].behavior) == a[k] && (a[k].thread != t ==> b == a[k])
    ensures BehaviorsOnly(a, a[k := b], t)
  {
  }

  lemma BehaviorsOnlyTrans(a: map<Name, Bot>, b: map<Name, Bot>, c: map<Name, Bot>, t: nat)
    requires BehaviorsOnly(a, b, t) && BehaviorsOnly(b, c, t)
    ensures BehaviorsOnly(a, c, t)
  {
  }

  lemma BehaviorsOnlyLive(a: map<Name, Bot>, b: map<Name, Bot>, t: nat)
    requires BehaviorsOnly(a, b, t)
    ensures SameLiveness(a, b)
  {
    forall k | k in a ensures a[k].thread == b[k].thread && a[k].disconnected == b[k].disconnected {
      assert b[k].(behavior := a[k].behavior) == a[k];
    }
  }

  // ---------------------------------------------------------------------------
  // Draining the queues

  datatype LoginResult = LoginResult(bots: map<Name, Bot>, ai: set<Name>, connects: seq<(Name, string)>, thrown: bool)

  predicate CanLogin(bots: map<Name, Bot>, t: nat, n: Name)
  {
    n in bots && bots[n].thread == t && !bots[n].disconnected
  }

  /**
   * The queued logins in order: each live bot of this thread loads its
   * scripts and connects. A bot whose event set is not registered throws out
   * of `LoadScripts`, and nothing after it runs.
   */
  function Logins(bots: map<Name, Bot>, t: nat, ai: set<Name>, names: seq<Name>, named: Named): LoginResult
    decreases |names|
  {
    if names == [] then LoginResult(bots, ai, [], false)
    else
      var n := names[0];
      if CanLogin(bots, t, n) then
        var l := LoadScripts(bots[n], named);
        if l.thrown then LoginResult(bots[n := l.bot], ai, [], true)
        else
          var r := Logins(bots[n := l.bot], t, if l.bot.behavior then ai + {l.bot.username} else ai, names[1..], named);
          LoginResult(r.bots, r.ai, [(n, ConnectTarget(l.bot))] + r.connects, r.thrown)
      else Logins(bots, t, ai, names[1..], named)
  }

  /** Logins change only behaviours, and only of the thread's bots; the behaviour set only grows. */
  lemma {:induction false} LoginsKeep(bots: map<Name, Bot>, t: nat, ai: set<Name>, names: seq<Name>, named: Named)
    ensures var r := Logins(bots, t, ai, names, named);
      BehaviorsOnly(bots, r.bots, t) && ai <= r.ai
    decreases |names|
  {
    if names != [] {
      var n := names[0];
      if CanLogin(bots, t, n) {
        var l := LoadScripts(bots[n], named);
        BehaviorsOnlyStep(bots, t, n, l.bot);
        if !l.thrown {
          var r := Logins(bots[n := l.bot], t, if l.bot.behavior then ai + {l.bot.username} else ai, names[1..], named);
          LoginsKeep(bots[n := l.bot], t, if l.bot.behavior then ai + {l.bot.username} else ai, names[1..], named);
          BehaviorsOnlyTrans(bots, bots[n := l.bot], r.bots, t);
        }
      } else {
        LoginsKeep(bots, t, ai, names[1..], named);
      }
    }
  }

  /** Only live bots of the thread that were queued connect. */
  lemma {:induction false} LoginsSound(bots: map<Name, Bot>, t: nat, ai: set<Name>, names: seq<Name>, named: Named)
    ensures forall c :: c in Logins(bots, t, ai, names, named).connects ==> CanLogin(bots, t, c.0) && c.0 in names
    decreases |names|
  {
    if names != [] {
      var n := names[0];
      if CanLogin(bots, t, n) {
        var l := LoadScripts(bots[n], named);
        if !l.thrown {
          var ai' := if l.bot.behavior then ai + {l.bot.username} else ai;
          LoginsSound(bots[n := l.bot], t, ai', names[1..], named);
          assert forall x :: CanLogin(bots[n := l.bot], t, x) ==> CanLogin(bots, t, x);
        }
      } else {
        LoginsSound(bots, t, ai, names[1..], named);
      }
    }
  }

  /** The logins throw exactly when some queued live bot of the thread names an event set that is not registered. */
  lemma {:induction false} LoginsThrown(bots: map<Name, Bot>, t: nat, ai: set<Name>, names: seq<Name>, named: Named)
    ensures Logins(bots, t, ai, names, named).thrown <==>
      exists n :: n in names && CanLogin(bots, t, n) && bots[n].events !in named
    decreases |names|
  {
    if names != [] {
      var n := names[0];
      assert forall x :: x in names <==> x == n || x in names[1..];
      if CanLogin(bots, t, n) {
        var l := LoadScripts(bots[n], named);
        if !l.thrown {
          var b := bots[n := l.bot];
          LoginsThrown(b, t, if l.bot.behavior then ai + {l.bot.username} else ai, names[1..], named);
          assert forall x :: (CanLogin(b, t, x) && b[x].events !in named) <==> (CanLogin(bots, t, x) && bots[x].events !in named);
        }
      } else {
        LoginsThrown(bots, t, ai, names[1..], named);
      }
    }
  }

  /**
   * When every queued live bot of the thread names a registered event set,
   * each of them connects, to the server it was started with.
   */
  lemma {:induction false} LoginsComplete(bots: map<Name, Bot>, t: nat, ai: set<Name>, names: seq<Name>, named: Named, m: Name)
    requires m in names && CanLogin(bots, t, m)
    requires forall n :: n in names && CanLogin(bots, t, n) ==> bots[n].events in named
    ensures (m, ConnectTarget(bots[m])) in Logins(bots, t, ai, names, named).connects
    decreases |names|
  {
    var n := names[0];
    if CanLogin(bots, t, n) {
      var l := LoadScripts(bots[n], named);
      assert n in names;
      if m != n {
        var b := bots[n := l.bot];
        assert m in names[1..];
        assert forall x :: CanLogin(b, t, x) ==> CanLogin(bots, t, x) && b[x].events == bots[x].events;
        LoginsComplete(b, t, if l.bot.behavior then ai + {l.bot.username} else ai, names[1..], named, m);
      }
    } else {
      assert m in names[1..];
      LoginsComplete(bots, t, ai, names[1..], named, m);
    }
  }

  datatype RemoveResult = RemoveResult(bots: map<Name, Bot>, ai: set<Name>)

  predicate CanRemove(bots: map<Name, Bot>, t: nat, n: Name)
  {
    n in bots && bots[n].thread == t && bots[n].disconnected
  }

  /** The queued removals in order: each disconnected bot of this thread is dropped. */
  function Removes(bots: map<Name, Bot>, t: nat, ai: set<Name>, names: seq<Name>): RemoveResult
    decreases |names|
  {
    if names == [] then RemoveResult(bots, ai)
    else
      var n := names[0];
      if CanRemove(bots, t, n) then
        Removes(bots - {n}, t, if bots[n].behavior then ai - {n} else ai, names[1..])
      else Removes(bots, t, ai, names[1..])
  }

  /** Exactly the queued, disconnected bots of the thread are gone; every other bot is as it was. */
  lemma {:induction false} RemovesMeaning(bots: map<Name, Bot>, t: nat, ai: set<Name>, names: seq<Name>)
    ensures var r := Removes(bots, t, ai, names);
      r.bots == map k | k in bots && !(k in names && CanRemove(bots, t, k)) :: bots[k]
    decreases |names|
  {
    if names != [] {
      var n := names[0];
      if CanRemove(bots, t, n) {
        RemovesMeaning(bots - {n}, t, if bots[n].behavior then ai - {n} else ai, names[1..]);
      } else {
        RemovesMeaning(bots, t, ai, names[1..]);
      }
    }
  }

  /** A removal keeps every thread's live set: only disconnected bots are dropped. */
  lemma RemovesKeepLive(bots: map<Name, Bot>, t: nat, ai: set<Name>, names: seq<Name>, u: nat)
    ensures Live(Removes(bots, t, ai, names).bots, u) == Live(bots, u)
  {
    RemovesMeaning(bots, t, ai, names);
  }

  // ---------------------------------------------------------------------------
  // The reload

  /**
   * `UnloadScripts` on each bot of the thread before a reload: the bot is
   * left without a behaviour, and nothing else about any bot changes.
   */
  function Unloaded(bots: map<Name, Bot>, t: nat): (r: map<Name, Bot>)
    ensures BehaviorsOnly(bots, r, t)
    ensures forall k :: k in r && r[k].thread == t ==> !r[k].behavior
  {
    map k | k in bots :: if bots[k].thread == t then bots[k].(behavior := false) else bots[k]
  }

  /** One bot on a reload that does not throw: scripts reloaded when it belongs to the thread. */
  function ReloadOne(b: Bot, t: nat, named: Named): Bot
  {
    if b.thread == t then LoadScripts(b, named).bot else b
  }

  /** The reference reload: every bot of the thread reloads its scripts. */
  function Reloaded(bots: map<Name, Bot>, t: nat, named: Named): map<Name, Bot>
  {
    map k | k in bots :: ReloadOne(bots[k], t, named)
  }

  /** The bots of the thread that get a behaviour on reload, by account name. */
  function ReloadedAI(bots: map<Name, Bot>, t: nat, named: Named): set<Name>
  {
    set k | k in bots && bots[k].thread == t && Rooted(named, bots[k].events) :: bots[k].username
  }

  datatype ReloadResult = ReloadResult(bots: map<Name, Bot>, ai: set<Name>, thrown: bool)

  /**
   * The reload loop over `m_bots` in the order it lists its keys: each bot of
   * the thread loads its scripts, and an event set that is not registered
   * throws out of the loop.
   */
  function Reloads(bots: map<Name, Bot>, t: nat, ai: set<Name>, order: seq<Name>, named: Named): ReloadResult
    decreases |order|
  {
    if order == [] then ReloadResult(bots, ai, false)
    else
      var k := order[0];
      if k in bots && bots[k].thread == t then
        var l := LoadScripts(bots[k], named);
        if l.thrown then ReloadResult(bots[k := l.bot], ai, true)
        else Reloads(bots[k := l.bot], t, if l.bot.behavior then ai + {l.bot.username} else ai, order[1..], named)
      else Reloads(bots, t, ai, order[1..], named)
  }

  /** The reload loop changes only behaviours, and only of the thread's bots. */
  lemma {:induction false} ReloadsKeep(bots: map<Name, Bot>, t: nat, ai: set<Name>, order: seq<Name>, named: Named)
    ensures var p := Reloads(bots, t, ai, order, named);
      BehaviorsOnly(bots, p.bots, t)
    decreases |order|
  {
    if order != [] {
      var k := order[0];
      if k in bots && bots[k].thread == t {
        var l := LoadScripts(bots[k], named);
        BehaviorsOnlyStep(bots, t, k, l.bot);
        if !l.thrown {
          var p := Reloads(bots[k := l.bot], t, if l.bot.behavior then ai + {l.bot.username} else ai, order[1..], named);
          ReloadsKeep(bots[k := l.bot], t, if l.bot.behavior then ai + {l.bot.username} else ai, order[1..], named);
          BehaviorsOnlyTrans(bots, bots[k := l.bot], p.bots, t);
        }
      } else {
        ReloadsKeep(bots, t, ai, order[1..], named);
      }
    }
  }

  /** The reload loop throws exactly when a bot of the thread it visits names an event set that is not registered. */
  lemma {:induction false} ReloadsThrown(bots: map<Name, Bot>, t: nat, ai: set<Name>, order: seq<Name>, named: Named)
    ensures Reloads(bots, t, ai, order, named).thrown <==>
      exists k :: k in order && k in bots && bots[k].thread == t && bots[k].events !in named
    decreases |order|
  {
    if order != [] {
      var k := order[0];
      assert forall x :: x in order <==> x == k || x in order[1..];
      if k in bots && bots[k].thread == t {
        var l := LoadScripts(bots[k], named);
        if !l.thrown {
          var b := bots[k := l.bot];
          ReloadsThrown(b, t, if l.bot.behavior then ai + {l.bot.username} else ai, order[1..], named);
          assert forall x :: (x in b && b[x].thread == t && b[x].events !in named) <==> (x in bots && bots[x].thread == t && bots[x].events !in named);
        }
      } else {
        ReloadsThrown(bots, t, ai, order[1..], named);
      }
    }
  }

  /** Reloading a bot twice is reloading it once, and a bot of the thread reloads the same whatever its behaviour before. */
  lemma ReloadOneAgain(b: Bot, t: nat, named: Named, x: bool)
    ensures ReloadOne(ReloadOne(b, t, named), t, named) == ReloadOne(b, t, named)
    ensures b.thread == t ==> ReloadOne(b.(behavior := x), t, named) == ReloadOne(b, t, named)
  {
    if b.thread == t {
      var c := LoadScripts(b, named).bot;
      assert c.events == b.events && c.thread == t;
      assert LoadScripts(c, named).bot == c;
      assert LoadScripts(b.(behavior := x), named).bot == c;
    }
  }

  /** Reloading one bot ahead of time changes nothing the reference reload gives. */
  lemma ReloadedStep(bots: map<Name, Bot>, t: nat, named: Named, k: Name)
    requires k in bots
    ensures Reloaded(bots[k := ReloadOne(bots[k], t, named)], t, named) == Reloaded(bots, t, named)
    ensures ReloadedAI(bots[k := ReloadOne(bots[k], t, named)], t, named) == ReloadedAI(bots, t, named)
  {
    ReloadOneAgain(bots[k], t, named, false);
    var b := bots[k := ReloadOne(bots[k], t, named)];
    SameReload(b, bots, t, named);
  }

  /** Two maps whose bots agree but for behaviours give the same reference reload. */
  lemma SameReload(a: map<Name, Bot>, b: map<Name, Bot>, t: nat, named: Named)
    requires a.Keys == b.Keys
    requires forall x :: x in a ==> a[x].thread == b[x].thread && a[x].events == b[x].events && a[x].username == b[x].username
    requires forall x :: x in a ==> ReloadOne(a[x], t, named) == ReloadOne(b[x], t, named)
    ensures Reloaded(a, t, named) == Reloaded(b, t, named)
    ensures ReloadedAI(a, t, named) == ReloadedAI(b, t, named)
  {
    forall y | y in ReloadedAI(a, t, named) ensures y in ReloadedAI(b, t, named) {
      var x :| x in a && a[x].thread == t && Rooted(named, a[x].events) && a[x].username == y;
    }
    forall y | y in ReloadedAI(b, t, named) ensures y in ReloadedAI(a, t, named) {
      var x :| x in b && b[x].thread == t && Rooted(named, b[x].events) && b[x].username == y;
    }
  }

  /**
   * A loop that does not throw gives the reference reload, once every bot
   * of the thread it does not visit is already reloaded.
   */
  lemma {:induction false} ReloadsDone(bots: map<Name, Bot>, t: nat, ai: set<Name>, order: seq<Name>, named: Named)
    requires forall k :: k in bots && bots[k].thread == t ==> bots[k].events in named
    requires forall k :: k in bots && bots[k].thread == t && k !in order ==>
      bots[k] == ReloadOne(bots[k], t, named) && (Rooted(named, bots[k].events) ==> bots[k].username in ai)
    ensures Reloads(bots, t, ai, order, named) == ReloadResult(Reloaded(bots, t, named), ai + ReloadedAI(bots, t, named), false)
    decreases |order|
  {
    if order == [] {
      assert Reloaded(bots, t, named) == bots;
      assert ai + ReloadedAI(bots, t, named) == ai;
    } else {
      var k := order[0];
      assert forall x :: x in order ==> x == k || x in order[1..];
      if k in bots && bots[k].thread == t {
        var l := LoadScripts(bots[k], named);
        var b := bots[k := l.bot];
        ReloadOneAgain(bots[k], t, named, false);
        ReloadedStep(bots, t, named, k);
        ReloadsDone(b, t, if l.bot.behavior then ai + {l.bot.username} else ai, order[1..], named);
      } else {
        ReloadsDone(bots, t, ai, order[1..], named);
      }
    }
  }

  /**
   * When the loop visits every bot of the thread and each names a
   * registered event set, it does not throw and gives the reference reload.
   */
  lemma ReloadsComplete(bots: map<Name, Bot>, t: nat, ai: set<Name>, order: seq<Name>, named: Named)
    requires forall k :: k in bots && bots[k].thread == t ==> k in order && bots[k].events in named
    ensures Reloads(bots, t, ai, order, named) == ReloadResult(Reloaded(bots, t, named), ai + ReloadedAI(bots, t, named), false)
  {
    ReloadsDone(bots, t, ai, order, named);
  }

  /** Dropping the behaviours first changes nothing the reference reload gives. */
  lemma UnloadedReload(bots: map<Name, Bot>, t: nat, named: Named)
    ensures Reloaded(Unloaded(bots, t), t, named) == Reloaded(bots, t, named)
    ensures ReloadedAI(Unloaded(bots, t), t, named) == ReloadedAI(bots, t, named)
  {
    var u := Unloaded(bots, t);
    forall k | k in bots ensures ReloadOne(u[k], t, named) == ReloadOne(bots[k], t, named) {
      if bots[k].thread == t {
        ReloadOneAgain(bots[k], t, named, false);
      }
    }
    assert forall k :: k in u ==> u[k].thread == bots[k].thread && u[k].events == bots[k].events && u[k].username == bots[k].username;
    SameReload(u, bots, t, named);
  }

  /** The reload loop over every bot: each bot of the thread reloads its scripts until one throws. */
  method ReloadAll(bots0: map<Name, Bot>, t: nat, named: Named, order: seq<Name>) returns (nb: map<Name, Bot>, ai: set<Name>, thrown: bool)
    ensures ReloadResult(nb, ai, thrown) == Reloads(bots0, t, {}, order, named)
    ensures thrown <==> exists k :: k in order && k in bots0 && bots0[k].thread == t && bots0[k].events !in named
    ensures !thrown && (forall k :: k in bots0 ==> k in order) ==>
      nb == Reloaded(bots0, t, named) && ai == ReloadedAI(bots0, t, named)
  {
    nb, ai, thrown := bots0, {}, false;
    var i := 0;
    while i < |order| && !thrown
      invariant 0 <= i <= |order|
      invariant Reloads(bots0, t, {}, order, named) ==
        if thrown then ReloadResult(nb, ai, true) else Reloads(nb, t, ai, order[i..], named)
    {
      assert order[i..][0] == order[i] && order[i..][1..] == order[i + 1..];
      var k := order[i];
      if k in nb && nb[k].thread == t {
        var l := LoadScripts(nb[k], named);
        nb := nb[k := l.bot];
        thrown := l.thrown;
        if l.bot.behavior {
          ai := ai + {l.bot.username};
        }
      }
      i := i + 1;
    }
    if !thrown {
      assert order[i..] == [];
    }
    ReloadsThrown(bots0, t, {}, order, named);
    if !thrown && (forall k :: k in bots0 ==> k in order) {
      ReloadsComplete(bots0, t, {}, order, named);
      assert {} + ReloadedAI(bots0, t, named) == ReloadedAI(bots0, t, named);
    }
  }

  // ---------------------------------------------------------------------------
  // The manager's state changes

  datatype State = State(bots: map<Name, Bot>, threads: seq<Thread>)

  /** Every bot sits on an existing thread under a key that upper-cases to its account name, and each thread counts its live bots. */
  ghost predicate ValidState(s: State)
  {
    (forall k :: k in s.bots ==> s.bots[k].thread < |s.threads| && s.bots[k].username == Upper(k)) &&
    (forall t :: 0 <= t < |s.threads| ==> s.threads[t].botCount == |Live(s.bots, t)|)
  }

  /** Changing behaviours only, and no thread's count, keeps the state valid. */
  lemma BehaviorsValid(s: State, bots: map<Name, Bot>, threads: seq<Thread>, t: nat)
    requires ValidState(s) && BehaviorsOnly(s.bots, bots, t)
    requires |threads| == |s.threads| && forall u :: 0 <= u < |threads| ==> threads[u].botCount == s.threads[u].botCount
    ensures ValidState(State(bots, threads))
  {
    BehaviorsOnlyLive(s.bots, bots, t);
    forall k | k in bots ensures bots[k].thread < |threads| && bots[k].username == Upper(k) {
      assert bots[k].(behavior := s.bots[k].behavior) == s.bots[k];
    }
    forall u | 0 <= u < |threads| ensures threads[u].botCount == |Live(bots, u)| {
      SameLive(s.bots, bots, u);
    }
  }

  /** A known bot started again: connected, counted again if it was stopped, queued to log in. */
  function Restarted(s: State, key: Name): State
    requires key in s.bots && s.bots[key].thread < |s.threads|
  {
    var b := s.bots[key];
    var th := s.threads[b.thread];
    State(s.bots[key := b.(disconnected := false)],
          s.threads[b.thread := th.(queuedLogins := th.queuedLogins + [key],
                                    botCount := if b.disconnected then th.botCount + 1 else th.botCount)])
  }

  /** A new bot stored, counted on its thread and queued to log in. */
  function Inserted(s: State, key: Name, b: Bot): State
    requires b.thread < |s.threads|
  {
    var th := s.threads[b.thread];
    State(s.bots[key := b], s.threads[b.thread := th.(queuedLogins := th.queuedLogins + [key], botCount := th.botCount + 1)])
  }

  /** `QueueDisconnect`: the first call uncounts the bot and queues its account name for removal; every call marks it disconnected. */
  function Queued(s: State, key: Name): State
    requires key in s.bots && s.bots[key].thread < |s.threads|
  {
    var b := s.bots[key];
    var th := s.threads[b.thread];
    State(s.bots[key := b.(disconnected := true)],
          if b.disconnected then s.threads
          else s.threads[b.thread := th.(botCount := th.botCount - 1, queuedRemoves := th.queuedRemoves + [b.username])])
  }

  /** Replacing one bot, on the same thread, and adjusting that thread's count by the change in liveness keeps the state valid. */
  lemma UpdateValid(s: State, k: Name, b: Bot, threads: seq<Thread>)
    requires ValidState(s) && b.thread < |s.threads| && b.username == Upper(k)
    requires k in s.bots ==> s.bots[k].thread == b.thread
    requires |threads| == |s.threads|
    requires forall u :: 0 <= u < |threads| && u != b.thread ==> threads[u].botCount == s.threads[u].botCount
    requires threads[b.thread].botCount == s.threads[b.thread].botCount
      + (if b.disconnected then 0 else 1) - (if k in s.bots && !s.bots[k].disconnected then 1 else 0)
    ensures ValidState(State(s.bots[k := b], threads))
  {
    forall u | 0 <= u < |threads| ensures threads[u].botCount == |Live(s.bots[k := b], u)| {
      CountAt(s.bots, k, b, u);
    }
  }

  /** How one replaced bot changes the size of a thread's live set. */
  lemma CountAt(bots: map<Name, Bot>, k: Name, b: Bot, u: nat)
    requires k in bots ==> bots[k].thread == b.thread
    ensures |Live(bots[k := b], u)| == |Live(bots, u)| +
      (if u == b.thread then (if b.disconnected then 0 else 1) - (if k in bots && !bots[k].disconnected then 1 else 0) else 0)
  {
    LiveUpdate(bots, k, b, u);
    var was := Live(bots, u);
    var rest := was - {k};
    CardWithout(was, k);
    if u == b.thread && !b.disconnected {
      assert k !in rest;
    } else {
      assert Live(bots[k := b], u) == rest;
    }
  }

  lemma CardWithout(s: set<Name>, k: Name)
    ensures |s - {k}| == if k in s then |s| - 1 else |s|
  {
    if k !in s {
      assert s - {k} == s;
    }
  }

  lemma RestartedValid(s: State, key: Name)
    requires ValidState(s) && key in s.bots
    ensures ValidState(Restarted(s, key))
  {
    var b := s.bots[key];
    var r := Restarted(s, key);
    UpdateValid(s, key, b.(disconnected := false), r.threads);
  }

  lemma InsertedValid(s: State, key: Name, b: Bot)
    requires ValidState(s) && key !in s.bots && b.thread < |s.threads| && b.username == Upper(key) && !b.disconnected
    ensures ValidState(Inserted(s, key, b))
  {
    UpdateValid(s, key, b, Inserted(s, key, b).threads);
  }

  lemma QueuedValid(s: State, key: Name)
    requires ValidState(s) && key in s.bots
    ensures ValidState(Queued(s, key))
  {
    var b := s.bots[key];
    UpdateValid(s, key, b.(disconnected := true), Queued(s, key).threads);
  }

  /** Stopping a bot and starting it again restores its entry and its thread's count. */
  lemma StopThenStart(s: State, key: Name)
    requires ValidState(s) && key in s.bots && !s.bots[key].disconnected
    ensures var r := Restarted(Queued(s, key), key);
      r.bots == s.bots && |r.threads| == |s.threads| &&
      forall u :: 0 <= u < |s.threads| ==> r.threads[u].botCount == s.threads[u].botCount
  {
    var b := s.bots[key];
    assert Queued(s, key).bots[key := b] == s.bots;
  }

  lemma UpdateTwice(s: seq<Thread>, t: nat, a: Thread, b: Thread)
    requires t < |s|
    ensures s[t := a][t := b] == s[t := b]
  {
  }

  datatype TickResult = TickResult(bots: map<Name, Bot>, thread: Thread, connects: seq<(Name, string)>)

  /**
   * One tick of thread t after its behaviours have run: when the loop is
   * still running and anything is queued or a reload is due, the logins,
   * then the removals, then the reload. An exception out of `LoadScripts`
   * ends the thread's loop where it is thrown. `named` is the thread's event
   * sets as registered, `reloaded` those the restarted scripts register, and
   * `order` the order in which `m_bots` lists its keys when the reload runs.
   */
  function Ticked(bots: map<Name, Bot>, th: Thread, t: nat, named: Named, reloaded: Named, order: seq<Name>): TickResult
  {
    if !th.running || (th.queuedLogins == [] && th.queuedRemoves == [] && !th.shouldReload) then TickResult(bots, th, [])
    else
      var l := Logins(bots, t, th.botsWithAI, th.queuedLogins, named);
      if l.thrown then TickResult(l.bots, th.(botsWithAI := l.ai, running := false), l.connects)
      else
        var r := Removes(l.bots, t, l.ai, th.queuedRemoves);
        if !th.shouldReload then TickResult(r.bots, th.(queuedLogins := [], botsWithAI := r.ai), l.connects)
        else
          var p := Reloads(Unloaded(r.bots, t), t, {}, order, reloaded);
          TickResult(p.bots, th.(queuedLogins := [], botsWithAI := p.ai, shouldReload := p.thrown, running := !p.thrown), l.connects)
  }

  /** Only live bots of the thread that were queued connect in a tick. */
  lemma TickConnectsSound(bots: map<Name, Bot>, th: Thread, t: nat, named: Named, reloaded: Named, order: seq<Name>)
    ensures forall c :: c in Ticked(bots, th, t, named, reloaded, order).connects ==> CanLogin(bots, t, c.0) && c.0 in th.queuedLogins
  {
    LoginsSound(bots, t, th.botsWithAI, th.queuedLogins, named);
  }

  /**
   * A queued live bot whose event set is not registered ends the thread's
   * loop: the login queue stays as it was, no removal runs and a due reload
   * stays due.
   */
  lemma TickThrowStops(bots: map<Name, Bot>, th: Thread, t: nat, named: Named, reloaded: Named, order: seq<Name>, m: Name)
    requires th.running && m in th.queuedLogins && CanLogin(bots, t, m) && bots[m].events !in named
    ensures var r := Ticked(bots, th, t, named, reloaded, order);
      !r.thread.running && r.thread.queuedLogins == th.queuedLogins && r.thread.queuedRemoves == th.queuedRemoves &&
      r.thread.shouldReload == th.shouldReload
  {
    LoginsThrown(bots, t, th.botsWithAI, th.queuedLogins, named);
  }

  /**
   * When every queued live bot and every bot of the thread names a
   * registered event set, a tick of a running thread leaves it running with
   * no login queued and no reload due, and every queued live bot connects.
   */
  lemma TickCompletes(bots: map<Name, Bot>, th: Thread, t: nat, named: Named, reloaded: Named, order: seq<Name>)
    requires th.running
    requires forall n :: n in th.queuedLogins && CanLogin(bots, t, n) ==> bots[n].events in named
    requires forall k :: k in bots && bots[k].thread == t ==> k in order && bots[k].events in reloaded
    ensures var r := Ticked(bots, th, t, named, reloaded, order);
      r.thread.running && r.thread.queuedLogins == [] && !r.thread.shouldReload &&
      forall m :: m in th.queuedLogins && CanLogin(bots, t, m) ==> (m, ConnectTarget(bots[m])) in r.connects
  {
    if th.queuedLogins != [] || th.queuedRemoves != [] || th.shouldReload {
      var l := Logins(bots, t, th.botsWithAI, th.queuedLogins, named);
      LoginsThrown(bots, t, th.botsWithAI, th.queuedLogins, named);
      forall m | m in th.queuedLogins && CanLogin(bots, t, m) ensures (m, ConnectTarget(bots[m])) in l.connects {
        LoginsComplete(bots, t, th.botsWithAI, th.queuedLogins, named, m);
      }
      if th.shouldReload {
        LoginsKeep(bots, t, th.botsWithAI, th.queuedLogins, named);
        var r := Removes(l.bots, t, l.ai, th.queuedRemoves);
        RemovesMeaning(l.bots, t, l.ai, th.queuedRemoves);
        var u := Unloaded(r.bots, t);
        assert forall k :: k in u ==> u[k].thread == bots[k].thread && u[k].events == bots[k].events by {
          forall k | k in u ensures u[k].thread == bots[k].thread && u[k].events == bots[k].events {
            assert u[k].(behavior := r.bots[k].behavior) == r.bots[k];
            assert l.bots[k].(behavior := bots[k].behavior) == bots[k];
          }
        }
        ReloadsThrown(u, t, {}, order, reloaded);
      }
    }
  }

  // ---------------------------------------------------------------------------
  // The manager

  class BotMgr {
    var bots: map<Name, Bot>
    var threads: seq<Thread>
    /** Whether bots are stored under their upper-cased name; as written they are stored under the name given. */
    const upperKeys: bool

    function KeyOf(username: Name): Name
      reads this
    {
      if upperKeys then Upper(username) else username
    }

    ghost predicate Valid()
      reads this
    {
      ValidState(State(bots, threads))
    }

    constructor (upperKeys: bool)
      ensures Valid() && bots == map[] && threads == [] && this.upperKeys == upperKeys
    {
      this.upperKeys := upperKeys;
      bots, threads := map[], [];
    }

    /** `Initialize`: `Bots.ThreadCount` idle threads, each due to load its scripts; a negative count fails. */
    method Initialize(threadCount: int) returns (ok: bool)
      requires Valid() && bots == map[]
      modifies this`threads
      ensures Valid() && ok == (threadCount >= 0)
      ensures ok ==> |threads| == threadCount && forall t :: 0 <= t < |threads| ==> threads[t] == Thread([], [], {}, 0, true, true)
      ensures !ok ==> threads == old(threads)
    {
      if threadCount < 0 {
        return false;
      }
      threads := seq(threadCount, _ => Thread([], [], {}, 0, true, true));
      ok := true;
    }

    /** The thread a new bot goes to: the first with the fewest live bots, none when there are no threads. */
    method LeastLoaded() returns (cur: Option<nat>)
      ensures cur.None? <==> |threads| == 0
      ensures cur.Some? ==> (cur.value < |threads| &&
        (forall j :: 0 <= j < |threads| ==> threads[cur.value].botCount <= threads[j].botCount) &&
        (forall j :: 0 <= j < cur.value ==> threads[cur.value].botCount < threads[j].botCount))
    {
      cur := None;
      var i := 0;
      while i < |threads|
        invariant 0 <= i <= |threads|
        invariant cur.None? <==> i == 0
        invariant cur.Some? ==> (cur.value < i &&
          (forall j :: 0 <= j < i ==> threads[cur.value].botCount <= threads[j].botCount) &&
          (forall j :: 0 <= j < cur.value ==> threads[cur.value].botCount < threads[j].botCount))
      {
        if cur.None? || threads[i].botCount < threads[cur.value].botCount {
          cur := Some(i);
        }
        i := i + 1;
      }
    }

    /**
     * `StartBot`. A known bot is started again; a new one goes to the
     * least-loaded thread; with no threads nothing happens.
     */
    method StartBot(username: Name, password: Name, events: string, authserver: string)
      requires Valid()
      modifies this`bots, this`threads
      ensures Valid()
      ensures var key, s := KeyOf(username), State(old(bots), old(threads));
        if key in s.bots then State(bots, threads) == Restarted(s, key)
        else if s.threads == [] then bots == s.bots && threads == s.threads
        else (key in bots && bots[key].thread < |s.threads| &&
          State(bots, threads) == Inserted(s, key, NewBot(bots[key].thread, username, password, events, authserver)) &&
          forall j :: 0 <= j < |s.threads| ==> s.threads[bots[key].thread].botCount <= s.threads[j].botCount)
    {
      var key := KeyOf(username);
      var s := State(bots, threads);
      if key in bots {
        RestartedValid(s, key);
        var r := Restarted(s, key);
        bots, threads := r.bots, r.threads;
        return;
      }
      var cur := LeastLoaded();
      if cur.None? {
        return;
      }
      var b := NewBot(cur.value, username, password, events, authserver);
      assert b.username == Upper(key) by {
        if upperKeys { UpperIdempotent(username); }
      }
      InsertedValid(s, key, b);
      var r := Inserted(s, key, b);
      bots, threads := r.bots, r.threads;
    }

    /** `QueueDisconnect`. */
    method QueueDisconnect(key: Name)
      requires Valid() && key in bots
      modifies this`bots, this`threads
      ensures Valid() && State(bots, threads) == Queued(State(old(bots), old(threads)), key)
    {
      var s := State(bots, threads);
      QueuedValid(s, key);
      var r := Queued(s, key);
      bots, threads := r.bots, r.threads;
    }

    /** `StopBot`: an unknown or already stopped bot is left alone; otherwise it is queued for disconnection. */
    method StopBot(username: Name)
      requires Valid()
      modifies this`bots, this`threads
      ensures Valid()
      ensures var key := KeyOf(username);
        if key !in old(bots) || old(bots)[key].disconnected then bots == old(bots) && threads == old(threads)
        else State(bots, threads) == Queued(State(old(bots), old(threads)), key)
    {
      var key := KeyOf(username);
      if key !in bots || bots[key].disconnected {
        return;
      }
      QueueDisconnect(key);
    }

    /**
     * The login half of a thread's tick. When `LoadScripts` throws, the loop
     * ends there and the login queue is not cleared.
     */
    method DrainLogins(t: nat, named: Named) returns (connects: seq<(Name, string)>, thrown: bool)
      requires Valid() && t < |threads|
      modifies this`bots, this`threads
      ensures Valid() && |threads| == |old(threads)|
      ensures var r := Logins(old(bots), t, old(threads)[t].botsWithAI, old(threads)[t].queuedLogins, named);
        bots == r.bots && connects == r.connects && thrown == r.thrown &&
        threads == old(threads)[t := old(threads)[t].(queuedLogins := if r.thrown then old(threads)[t].queuedLogins else [], botsWithAI := r.ai)]
    {
      var names := threads[t].queuedLogins;
      var ai := threads[t].botsWithAI;
      ghost var bots0, ai0 := bots, ai;
      connects, thrown := [], false;
      var i := 0;
      while i < |names| && !thrown
        invariant 0 <= i <= |names| && threads == old(threads)
        invariant var r := if thrown then LoginResult(bots, ai, [], true) else Logins(bots, t, ai, names[i..], named);
          r.(connects := connects + r.connects) == Logins(bots0, t, ai0, names, named)
      {
        assert names[i..][0] == names[i] && names[i..][1..] == names[i + 1..];
        var n := names[i];
        if n in bots && bots[n].thread == t && !bots[n].disconnected {
          var l := LoadScripts(bots[n], named);
          bots := bots[n := l.bot];
          if l.thrown {
            thrown := true;
          } else {
            if l.bot.behavior {
              ai := ai + {l.bot.username};
            }
            connects := connects + [(n, ConnectTarget(l.bot))];
          }
        }
        i := i + 1;
      }
      if !thrown {
        assert names[i..] == [];
      }
      LoginsKeep(bots0, t, ai0, names, named);
      BehaviorsOnlyLive(bots0, bots, t);
      forall u | 0 <= u < |threads| ensures threads[u].botCount == |Live(bots, u)| {
        SameLive(bots0, bots, u);
      }
      var th := threads[t];
      threads := threads[t := th.(queuedLogins := if thrown then th.queuedLogins else [], botsWithAI := ai)];
    }


    /** The removal half of a thread's tick; the queue itself is not cleared. */
    method DrainRemoves(t: nat)
      requires Valid() && t < |threads|
      modifies this`bots, this`threads
      ensures Valid() && |threads| == |old(threads)|
      ensures var r := Removes(old(bots), t, old(threads)[t].botsWithAI, old(threads)[t].queuedRemoves);
        bots == r.bots && threads == old(threads)[t := old(threads)[t].(botsWithAI := r.ai)]
    {
      var names := threads[t].queuedRemoves;
      var ai := threads[t].botsWithAI;
      ghost var bots0, ai0 := bots, ai;
      var i := 0;
      while i < |names|
        invariant 0 <= i <= |names| && threads == old(threads)
        invariant Removes(bots, t, ai, names[i..]) == Removes(bots0, t, ai0, names)
      {
        assert names[i..][0] == names[i] && names[i..][1..] == names[i + 1..];
        var n := names[i];
        if n in bots && bots[n].thread == t && bots[n].disconnected {
          if bots[n].behavior {
            ai := ai - {n};
          }
          bots := bots - {n};
        }
        i := i + 1;
      }
      assert names[i..] == [];
      RemovesMeaning(bots0, t, ai0, names);
      forall u | 0 <= u < |threads| ensures threads[u].botCount == |Live(bots, u)| {
        RemovesKeepLive(bots0, t, ai0, names, u);
      }
      var th := threads[t];
      threads := threads[t := th.(botsWithAI := ai)];
    }

    /**
     * The reload half of a thread's tick: each bot of the thread drops its
     * behaviour, the behaviour set is cleared, and then each bot of the
     * thread reloads its scripts in the order `m_bots` lists them, until an
     * event set that is not registered throws. A reload that throws stays due.
     */
    method ReloadThread(t: nat, named: Named, order: seq<Name>) returns (thrown: bool)
      requires Valid() && t < |threads|
      modifies this`bots, this`threads
      ensures Valid() && |threads| == |old(threads)|
      ensures var p := Reloads(Unloaded(old(bots), t), t, {}, order, named);
        bots == p.bots && thrown == p.thrown &&
        threads == old(threads)[t := old(threads)[t].(botsWithAI := p.ai, shouldReload := p.thrown)]
      ensures thrown <==> exists k :: k in order && k in old(bots) && old(bots)[k].thread == t && old(bots)[k].events !in named
      ensures !thrown && (forall k :: k in old(bots) ==> k in order) ==>
        bots == Reloaded(old(bots), t, named) && threads[t].botsWithAI == ReloadedAI(old(bots), t, named)
    {
      ghost var s0 := State(bots, threads);
      var bots0 := Unloaded(bots, t);
      var nb, ai;
      nb, ai, thrown := ReloadAll(bots0, t, named, order);
      UnloadedReload(bots, t, named);
      ReloadsKeep(bots0, t, {}, order, named);
      BehaviorsOnlyTrans(bots, bots0, nb, t);
      bots := nb;
      var th := threads[t];
      threads := threads[t := th.(botsWithAI := ai, shouldReload := thrown)];
      BehaviorsValid(s0, bots, threads, t);
    }

    /** A thread whose loop has ended: the exception left it, and nothing else changes. */
    method Halt(t: nat)
      requires Valid() && t < |threads|
      modifies this`threads
      ensures Valid() && threads == old(threads)[t := old(threads)[t].(running := false)]
    {
      threads := threads[t := threads[t].(running := false)];
    }

    /** One tick of thread t, as `Ticked` describes it; the result is the logins started, with the server each connects to. */
    method Tick(t: nat, named: Named, reloaded: Named, order: seq<Name>) returns (connects: seq<(Name, string)>)
      requires Valid() && t < |threads|
      modifies this`bots, this`threads
      ensures Valid() && |threads| == |old(threads)|
      ensures var r := Ticked(old(bots), old(threads)[t], t, named, reloaded, order);
        bots == r.bots && threads == old(threads)[t := r.thread] && connects == r.connects
    {
      connects := [];
      var th := threads[t];
      if !th.running || (th.queuedLogins == [] && th.queuedRemoves == [] && !th.shouldReload) {
        return;
      }
      ghost var threads0 := threads;
      ghost var l := Logins(bots, t, th.botsWithAI, th.queuedLogins, named);
      var thrown;
      connects, thrown := DrainLogins(t, named);
      if thrown {
        Halt(t);
        UpdateTwice(threads0, t, th.(botsWithAI := l.ai), th.(botsWithAI := l.ai, running := false));
        return;
      }
      ghost var th1 := th.(queuedLogins := [], botsWithAI := l.ai);
      ghost var r := Removes(l.bots, t, l.ai, th.queuedRemoves);
      DrainRemoves(t);
      UpdateTwice(threads0, t, th1, th1.(botsWithAI := r.ai));
      if th.shouldReload {
        ghost var th2 := th1.(botsWithAI := r.ai);
        ghost var p := Reloads(Unloaded(r.bots, t), t, {}, order, reloaded);
        thrown := ReloadThread(t, reloaded, order);
        UpdateTwice(threads0, t, th2, th2.(botsWithAI := p.ai, shouldReload := p.thrown));
        if thrown {
          ghost var th3 := th2.(botsWithAI := p.ai, shouldReload := p.thrown);
          Halt(t);
          UpdateTwice(threads0, t, th3, th3.(running := false));
        }
      }
    }

    /** `BotMgr::Reload`: every thread is due to reload. */
    method Reload()
      requires Valid()
      modifies this`threads
      ensures Valid() && |threads| == |old(threads)|
      ensures forall t :: 0 <= t < |threads| ==> threads[t] == old(threads)[t].(shouldReload := true)
    {
      threads := seq(|threads|, i requires 0 <= i < |threads| reads this => threads[i].(shouldReload := true));
    }
  }

  /** "alice" as bytes. */
  const Alice: Name := [97, 108, 105, 99, 101]

  /**
   * As written, a bot started under a name with lower-case letters is never
   * removed: it is stored under the name given, but its removal is queued
   * under the upper-cased name.
   */
  method StopKeepsLowerCaseBot() returns (m: BotMgr)
    ensures Alice in m.bots && m.bots[Alice].disconnected
  {
    m := new BotMgr(false);
    var _ := m.Initialize(1);
    m.StartBot(Alice, [], "e", "127.0.0.1");
    assert m.bots[Alice].thread == 0 && m.threads[0].queuedRemoves == [];
    assert m.bots[Alice].username == Upper(Alice);
    m.StopBot(Alice);
    assert m.threads[0].queuedRemoves == [Upper(Alice)];
    assert Upper(Alice)[0] == 65;
    ghost var b := m.bots;
    m.DrainRemoves(0);
    RemovesMeaning(b, 0, {}, [Upper(Alice)]);
  }

  /** Stored under the upper-cased name, the same bot is removed on the next tick. */
  method StopRemovesBot() returns (m: BotMgr)
    ensures |m.threads| == 1 && Upper(Alice) !in m.bots && m.threads[0].botCount == 0
  {
    m := new BotMgr(true);
    var _ := m.Initialize(1);
    m.StartBot(Alice, [], "e", "127.0.0.1");
    assert m.bots[Upper(Alice)].thread == 0 && m.threads[0].queuedRemoves == [];
    UpperIdempotent(Alice);
    m.StopBot(Alice);
    assert m.threads[0].queuedRemoves == [Upper(Alice)];
    ghost var b := m.bots;
    m.DrainRemoves(0);
    RemovesMeaning(b, 0, {}, [Upper(Alice)]);
  }
}
