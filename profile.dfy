/**
 * The profile graph: nodes holding the nine events of a bot profile, linked
 * by parent and child edges, registered under "mod:name" keys, and
 * flattened by `Build` so that every node carries its ancestors' callbacks.
 *
 * Nodes live in an arena and are named by their index; node 0 is the root.
 * A node is created after every one of its parents, so parent edges point to
 * lower indices and child edges to higher ones, and the graph is acyclic.
 * The older `BotEventsMgr` behaves the same way (its first event kind is
 * called OnCreate instead of OnLoad, and nodes carry no behaviour root).
 */
module Profile {
  import opened Events
  import opened Wrappers
  import Opcodes

  /** The event kinds of a node, in the order `apply_extensions` extends them. */
  const OnWorldPacket: nat := 0
  const OnLoad: nat := 1
  const OnAuthChallenge: nat := 2
  const OnAuthProof: nat := 3
  const OnRequestRealms: nat := 4
  const OnSelectRealm: nat := 5
  const OnCloseAuthConnection: nat := 6
  const OnWorldAuthChallenge: nat := 7
  const OnWorldAuthResponse: nat := 8
  const Kinds: nat := 9

  const RootName: string := "tswow:root_events"

  /** Identifies the behaviour-tree node installed by `SetBehaviorRoot`. */
  type TreeId = nat

  /** The events of a new node: nine empty events. */
  const NewEvents: seq<EventData> := seq(Kinds, _ => Empty)

  /** A `BotProfile` handle: a pointer to a node, null for a default-constructed one. */
  datatype Handle = Handle(storage: Option<nat>)

  const Unloaded: Handle := Handle(None)

  /** `IsLoaded`: the handle points at a node. */
  predicate IsLoaded(h: Handle)
  {
    h.storage.Some?
  }

  // ---------------------------------------------------------------------
  // Extension of a node by another node.

  /** `apply_extensions`: each of the nine events extended by the parent's event of the same kind. */
  function ApplyExtensions(mine: seq<EventData>, theirs: seq<EventData>): (r: seq<EventData>)
    requires |mine| == Kinds && |theirs| == Kinds
    ensures |r| == Kinds
  {
    seq(Kinds, k requires 0 <= k < Kinds => Extended(mine[k], theirs[k]))
  }

  /** The events of a node extended by the nodes of order, one after the other. */
  function ExtendAll(ev: seq<EventData>, order: seq<nat>, evs: seq<seq<EventData>>): (r: seq<EventData>)
    requires |ev| == Kinds && forall k :: 0 <= k < |order| ==> order[k] < |evs| && |evs[order[k]]| == Kinds
    ensures |r| == Kinds
    decreases |order|
  {
    if order == [] then ev else ExtendAll(ApplyExtensions(ev, evs[order[0]]), order[1..], evs)
  }

  /** The unkeyed C++ callbacks of kind k of the nodes of order, concatenated. */
  function CxxOf(order: seq<nat>, evs: seq<seq<EventData>>, k: nat): seq<CallbackId>
    requires k < Kinds && forall j :: 0 <= j < |order| ==> order[j] < |evs| && |evs[order[j]]| == Kinds
    decreases |order|
  {
    if order == [] then [] else evs[order[0]][k].cxx + CxxOf(order[1..], evs, k)
  }

  /** The unkeyed Lua callbacks of kind k of the nodes of order, concatenated. */
  function LuaOf(order: seq<nat>, evs: seq<seq<EventData>>, k: nat): seq<CallbackId>
    requires k < Kinds && forall j :: 0 <= j < |order| ==> order[j] < |evs| && |evs[order[j]]| == Kinds
    decreases |order|
  {
    if order == [] then [] else evs[order[0]][k].lua + LuaOf(order[1..], evs, k)
  }

  /** Slot i of the keyed C++ tables of kind k of the nodes of order, concatenated. */
  function SlotOf(order: seq<nat>, evs: seq<seq<EventData>>, k: nat, i: nat): seq<CallbackId>
    requires k < Kinds && forall j :: 0 <= j < |order| ==> order[j] < |evs| && |evs[order[j]]| == Kinds
    decreases |order|
  {
    if order == [] then [] else Slot(evs[order[0]][k].idCxx, i) + SlotOf(order[1..], evs, k, i)
  }

  /** Slot i of the keyed Lua tables of kind k of the nodes of order, concatenated. */
  function LuaSlotOf(order: seq<nat>, evs: seq<seq<EventData>>, k: nat, i: nat): seq<CallbackId>
    requires k < Kinds && forall j :: 0 <= j < |order| ==> order[j] < |evs| && |evs[order[j]]| == Kinds
    decreases |order|
  {
    if order == [] then [] else Slot(evs[order[0]][k].idLua, i) + LuaSlotOf(order[1..], evs, k, i)
  }

  /**
   * Extending by a list of nodes leaves every kind's own callbacks first and
   * appends the listed nodes' callbacks after them, in list order, in the
   * unkeyed lists and in every keyed slot alike.
   */
  lemma ExtendAllLists(ev: seq<EventData>, order: seq<nat>, evs: seq<seq<EventData>>, k: nat, i: nat)
    requires |ev| == Kinds && k < Kinds
    requires forall j :: 0 <= j < |order| ==> order[j] < |evs| && |evs[order[j]]| == Kinds
    ensures ExtendAll(ev, order, evs)[k].cxx == ev[k].cxx + CxxOf(order, evs, k)
    ensures ExtendAll(ev, order, evs)[k].lua == ev[k].lua + LuaOf(order, evs, k)
    ensures Slot(ExtendAll(ev, order, evs)[k].idCxx, i) == Slot(ev[k].idCxx, i) + SlotOf(order, evs, k, i)
    ensures Slot(ExtendAll(ev, order, evs)[k].idLua, i) == Slot(ev[k].idLua, i) + LuaSlotOf(order, evs, k, i)
  {
    ExtendAllCxx(ev, order, evs, k);
    ExtendAllLua(ev, order, evs, k);
    ExtendAllSlot(ev, order, evs, k, i);
    ExtendAllLuaSlot(ev, order, evs, k, i);
  }

  lemma {:induction false} ExtendAllCxx(ev: seq<EventData>, order: seq<nat>, evs: seq<seq<EventData>>, k: nat)
    requires |ev| == Kinds && k < Kinds
    requires forall j :: 0 <= j < |order| ==> order[j] < |evs| && |evs[order[j]]| == Kinds
    ensures ExtendAll(ev, order, evs)[k].cxx == ev[k].cxx + CxxOf(order, evs, k)
    decreases |order|
  {
    if order != [] {
      var ev1 := ApplyExtensions(ev, evs[order[0]]);
      ExtendAllCxx(ev1, order[1..], evs, k);
      assert ev1[k] == Extended(ev[k], evs[order[0]][k]);
    }
  }

  lemma {:induction false} ExtendAllLua(ev: seq<EventData>, order: seq<nat>, evs: seq<seq<EventData>>, k: nat)
    requires |ev| == Kinds && k < Kinds
    requires forall j :: 0 <= j < |order| ==> order[j] < |evs| && |evs[order[j]]| == Kinds
    ensures ExtendAll(ev, order, evs)[k].lua == ev[k].lua + LuaOf(order, evs, k)
    decreases |order|
  {
    if order != [] {
      var ev1 := ApplyExtensions(ev, evs[order[0]]);
      ExtendAllLua(ev1, order[1..], evs, k);
      assert ev1[k] == Extended(ev[k], evs[order[0]][k]);
    }
  }

  lemma {:induction false} ExtendAllSlot(ev: seq<EventData>, order: seq<nat>, evs: seq<seq<EventData>>, k: nat, i: nat)
    requires |ev| == Kinds && k < Kinds
    requires forall j :: 0 <= j < |order| ==> order[j] < |evs| && |evs[order[j]]| == Kinds
    ensures Slot(ExtendAll(ev, order, evs)[k].idCxx, i) == Slot(ev[k].idCxx, i) + SlotOf(order, evs, k, i)
    decreases |order|
  {
    if order != [] {
      var ev1 := ApplyExtensions(ev, evs[order[0]]);
      ExtendAllSlot(ev1, order[1..], evs, k, i);
      assert ev1[k] == Extended(ev[k], evs[order[0]][k]);
      MergedSlot(ev[k].idCxx, evs[order[0]][k].idCxx, i);
      assert ExtendAll(ev, order, evs) == ExtendAll(ev1, order[1..], evs);
      Reassociate(Slot(ev[k].idCxx, i), Slot(evs[order[0]][k].idCxx, i), SlotOf(order[1..], evs, k, i));
    }
  }

  lemma {:induction false} ExtendAllLuaSlot(ev: seq<EventData>, order: seq<nat>, evs: seq<seq<EventData>>, k: nat, i: nat)
    requires |ev| == Kinds && k < Kinds
    requires forall j :: 0 <= j < |order| ==> order[j] < |evs| && |evs[order[j]]| == Kinds
    ensures Slot(ExtendAll(ev, order, evs)[k].idLua, i) == Slot(ev[k].idLua, i) + LuaSlotOf(order, evs, k, i)
    decreases |order|
  {
    if order != [] {
      var ev1 := ApplyExtensions(ev, evs[order[0]]);
      ExtendAllLuaSlot(ev1, order[1..], evs, k, i);
      assert ev1[k] == Extended(ev[k], evs[order[0]][k]);
      MergedSlot(ev[k].idLua, evs[order[0]][k].idLua, i);
      assert ExtendAll(ev, order, evs) == ExtendAll(ev1, order[1..], evs);
      Reassociate(Slot(ev[k].idLua, i), Slot(evs[order[0]][k].idLua, i), LuaSlotOf(order[1..], evs, k, i));
    }
  }

  /** Extending by a concatenation is extending by each part in turn. */
  lemma {:induction false} ExtendAllAppend(ev: seq<EventData>, a: seq<nat>, b: seq<nat>, evs: seq<seq<EventData>>)
    requires |ev| == Kinds
    requires forall j :: 0 <= j < |a| ==> a[j] < |evs| && |evs[a[j]]| == Kinds
    requires forall j :: 0 <= j < |b| ==> b[j] < |evs| && |evs[b[j]]| == Kinds
    ensures ExtendAll(ev, a + b, evs) == ExtendAll(ExtendAll(ev, a, evs), b, evs)
    decreases |a|
  {
    if a == [] {
      assert a + b == b;
    } else {
      assert (a + b)[0] == a[0] && (a + b)[1..] == a[1..] + b;
      ExtendAllAppend(ApplyExtensions(ev, evs[a[0]]), a[1..], b, evs);
    }
  }

  /** Extension reads only the events of the listed nodes. */
  lemma {:induction false} ExtendAllAgree(ev: seq<EventData>, order: seq<nat>, evs: seq<seq<EventData>>, fs: seq<seq<EventData>>)
    requires |ev| == Kinds
    requires forall j :: 0 <= j < |order| ==> order[j] < |evs| && order[j] < |fs| && |evs[order[j]]| == Kinds && fs[order[j]] == evs[order[j]]
    ensures ExtendAll(ev, order, evs) == ExtendAll(ev, order, fs)
    decreases |order|
  {
    if order != [] {
      ExtendAllAgree(ApplyExtensions(ev, evs[order[0]]), order[1..], evs, fs);
    }
  }

  // ---------------------------------------------------------------------
  // Parent edges: ancestors, and the depth-first walk of `ApplyParents`.

  /** Every parent edge points to a lower index. */
  predicate ParentsBelow(ps: seq<seq<nat>>)
  {
    forall i, k :: 0 <= i < |ps| && 0 <= k < |ps[i]| ==> ps[i][k] < i
  }

  /** The indices below n. */
  function Range(n: nat): (r: set<nat>)
    ensures forall i: nat :: i in r <==> i < n
  {
    if n == 0 then {} else Range(n - 1) + {n - 1}
  }

  /** Every node reachable through parent edges from a node of list (all below bound), the list's own nodes included. */
  function AncOf(ps: seq<seq<nat>>, list: seq<nat>, bound: nat): set<nat>
    requires ParentsBelow(ps) && bound <= |ps| && forall k :: 0 <= k < |list| ==> list[k] < bound
    decreases bound, |list|
  {
    if list == [] then {} else {list[0]} + AncOf(ps, ps[list[0]], list[0]) + AncOf(ps, list[1..], bound)
  }

  /** The distinct ancestors of node i. */
  function Ancestors(ps: seq<seq<nat>>, i: nat): set<nat>
    requires ParentsBelow(ps) && i < |ps|
  {
    AncOf(ps, ps[i], i)
  }

  /**
   * The loop and recursion of `ApplyParents` over the parent list `list`:
   * an unvisited parent is marked visited, applied, and walked before the
   * next parent. The result is the final visited set and the nodes applied,
   * in order.
   */
  function Walk(ps: seq<seq<nat>>, list: seq<nat>, visited: set<nat>): (r: (set<nat>, seq<nat>))
    requires ParentsBelow(ps) && visited <= Range(|ps|) && forall k :: 0 <= k < |list| ==> list[k] < |ps|
    ensures visited <= r.0 <= Range(|ps|)
    ensures forall j :: 0 <= j < |r.1| ==> r.1[j] < |ps|
    decreases Range(|ps|) - visited, |list|
  {
    if list == [] then (visited, [])
    else if list[0] in visited then Walk(ps, list[1..], visited)
    else
      var p := list[0];
      assert p in Range(|ps|) - visited;
      var sub := Walk(ps, ps[p], visited + {p});
      var rest := Walk(ps, list[1..], sub.0);
      (rest.0, [p] + sub.1 + rest.1)
  }

  function Elems(s: seq<nat>): set<nat>
  {
    set x | x in s
  }

  predicate NoDup(s: seq<nat>)
  {
    forall i, j :: 0 <= i < j < |s| ==> s[i] != s[j]
  }

  /**
   * The walk applies exactly the nodes it newly visits, each once, and none
   * that was visited before it started.
   */
  lemma {:induction false} WalkVisits(ps: seq<seq<nat>>, list: seq<nat>, visited: set<nat>)
    requires ParentsBelow(ps) && visited <= Range(|ps|) && forall k :: 0 <= k < |list| ==> list[k] < |ps|
    ensures var r := Walk(ps, list, visited);
      NoDup(r.1) && (forall j :: 0 <= j < |r.1| ==> r.1[j] !in visited) && r.0 == visited + Elems(r.1)
    decreases Range(|ps|) - visited, |list|
  {
    if list == [] {
    } else if list[0] in visited {
      WalkVisits(ps, list[1..], visited);
    } else {
      var p := list[0];
      assert p in Range(|ps|) - visited;
      var sub := Walk(ps, ps[p], visited + {p});
      var rest := Walk(ps, list[1..], sub.0);
      WalkVisits(ps, ps[p], visited + {p});
      WalkVisits(ps, list[1..], sub.0);
      NoDupJoin(p, sub.1, rest.1, visited, sub.0);
      WalkSet(p, sub.1, rest.1, visited, sub.0, rest.0);
    }
  }

  /** Putting p before a walk's result and the walk that follows it keeps the nodes distinct. */
  lemma NoDupJoin(p: nat, a: seq<nat>, b: seq<nat>, v0: set<nat>, v1: set<nat>)
    requires p !in v0 && NoDup(a) && NoDup(b)
    requires forall j :: 0 <= j < |a| ==> a[j] !in v0 + {p}
    requires forall j :: 0 <= j < |b| ==> b[j] !in v1
    requires v1 == v0 + {p} + Elems(a)
    ensures NoDup([p] + a + b) && forall j :: 0 <= j < |[p] + a + b| ==> ([p] + a + b)[j] !in v0
  {
    var s := [p] + a + b;
    forall i, j | 0 <= i < j < |s|
      ensures s[i] != s[j]
    {
      if i == 0 {
        if j <= |a| {
          assert s[j] == a[j - 1];
        } else {
          assert s[j] == b[j - 1 - |a|];
        }
      } else if i <= |a| {
        assert s[i] == a[i - 1] && s[i] in v1;
        if j <= |a| {
          assert s[j] == a[j - 1];
        } else {
          assert s[j] == b[j - 1 - |a|];
        }
      } else {
        assert s[i] == b[i - 1 - |a|] && s[j] == b[j - 1 - |a|];
      }
    }
    forall j | 0 <= j < |s|
      ensures s[j] !in v0
    {
      if j == 0 {
      } else if j <= |a| {
        assert s[j] == a[j - 1];
      } else {
        assert s[j] == b[j - 1 - |a|];
        assert b[j - 1 - |a|] !in v1;
      }
    }
  }

  /** Everything the walk applies is an ancestor of the list. */
  lemma {:induction false} WalkSound(ps: seq<seq<nat>>, list: seq<nat>, visited: set<nat>, bound: nat)
    requires ParentsBelow(ps) && visited <= Range(|ps|) && bound <= |ps| && forall k :: 0 <= k < |list| ==> list[k] < bound
    ensures var r := Walk(ps, list, visited); forall j :: 0 <= j < |r.1| ==> r.1[j] in AncOf(ps, list, bound)
    decreases Range(|ps|) - visited, |list|
  {
    if list != [] {
      var anc := AncOf(ps, list, bound);
      var tail := AncOf(ps, list[1..], bound);
      AncOfTail(ps, list, bound);
      assert tail <= anc;
      if list[0] in visited {
        var rest := Walk(ps, list[1..], visited);
        assert Walk(ps, list, visited) == rest;
        WalkSound(ps, list[1..], visited, bound);
        assert forall j :: 0 <= j < |Walk(ps, list[1..], visited).1| ==> Walk(ps, list[1..], visited).1[j] in AncOf(ps, list[1..], bound);
        assert forall j :: 0 <= j < |rest.1| ==> rest.1[j] in tail;
      } else {
        var p := list[0];
        assert p in Range(|ps|) - visited;
        var up := AncOf(ps, ps[p], p);
        assert up <= anc && p in anc;
        var sub := Walk(ps, ps[p], visited + {p});
        var rest := Walk(ps, list[1..], sub.0);
        WalkSound(ps, ps[p], visited + {p}, p);
        assert forall j :: 0 <= j < |Walk(ps, ps[p], visited + {p}).1| ==> Walk(ps, ps[p], visited + {p}).1[j] in AncOf(ps, ps[p], p);
        WalkSound(ps, list[1..], sub.0, bound);
        assert forall j :: 0 <= j < |Walk(ps, list[1..], sub.0).1| ==> Walk(ps, list[1..], sub.0).1[j] in AncOf(ps, list[1..], bound);
        var r := [p] + sub.1 + rest.1;
        assert Walk(ps, list, visited).1 == r;
        forall j | 0 <= j < |r|
          ensures r[j] in anc
        {
          if j == 0 {
          } else if j <= |sub.1| {
            assert r[j] == sub.1[j - 1] && sub.1[j - 1] in up;
          } else {
            assert r[j] == rest.1[j - 1 - |sub.1|] && rest.1[j - 1 - |sub.1|] in tail;
          }
        }
      }
    }
  }

  /**
   * Every listed node ends up visited, and so do the parents of every node
   * the walk visited.
   */
  lemma {:induction false} WalkClosed(ps: seq<seq<nat>>, list: seq<nat>, visited: set<nat>)
    requires ParentsBelow(ps) && visited <= Range(|ps|) && forall k :: 0 <= k < |list| ==> list[k] < |ps|
    ensures var r := Walk(ps, list, visited);
      (forall k :: 0 <= k < |list| ==> list[k] in r.0) &&
      (forall x, k :: x in r.0 - visited && 0 <= k < |ps[x]| ==> ps[x][k] in r.0)
    decreases Range(|ps|) - visited, |list|
  {
    if list == [] {
    } else if list[0] in visited {
      WalkClosed(ps, list[1..], visited);
    } else {
      var p := list[0];
      assert p in Range(|ps|) - visited;
      var sub := Walk(ps, ps[p], visited + {p});
      WalkClosed(ps, ps[p], visited + {p});
      WalkClosed(ps, list[1..], sub.0);
    }
  }

  /** The visited set after a walk step, element by element. */
  lemma WalkSet(p: nat, a: seq<nat>, b: seq<nat>, v0: set<nat>, v1: set<nat>, v2: set<nat>)
    requires v1 == v0 + {p} + Elems(a)
    requires v2 == v1 + Elems(b)
    ensures v2 == v0 + Elems([p] + a + b)
  {
  }

  /** The ancestors of a list include those of its tail and of its head. */
  lemma AncOfTail(ps: seq<seq<nat>>, list: seq<nat>, bound: nat)
    requires ParentsBelow(ps) && bound <= |ps| && list != [] && forall k :: 0 <= k < |list| ==> list[k] < bound
    ensures AncOf(ps, list, bound) == {list[0]} + AncOf(ps, ps[list[0]], list[0]) + AncOf(ps, list[1..], bound)
  {
  }

  /** A set holding a list and closed under parent edges holds all the list's ancestors. */
  lemma {:induction false} AncOfClosed(ps: seq<seq<nat>>, list: seq<nat>, bound: nat, s: set<nat>)
    requires ParentsBelow(ps) && bound <= |ps| && forall k :: 0 <= k < |list| ==> list[k] < bound
    requires forall k :: 0 <= k < |list| ==> list[k] in s
    requires forall x, k :: x in s && x < |ps| && 0 <= k < |ps[x]| ==> ps[x][k] in s
    ensures AncOf(ps, list, bound) <= s
    decreases bound, |list|
  {
    if list != [] {
      AncOfClosed(ps, ps[list[0]], list[0], s);
      AncOfClosed(ps, list[1..], bound, s);
    }
  }

  /** The nodes `ApplyParents(x, x, {})` applies, in order. */
  function Order(ps: seq<seq<nat>>, x: nat): seq<nat>
    requires ParentsBelow(ps) && x < |ps|
  {
    Walk(ps, ps[x], {}).1
  }

  /**
   * `ApplyParents` from an empty visited set applies each distinct ancestor
   * exactly once: the nodes applied are exactly the ancestors, with no
   * repetition, all below x.
   */
  lemma OrderIsAncestors(ps: seq<seq<nat>>, x: nat)
    requires ParentsBelow(ps) && x < |ps|
    ensures NoDup(Order(ps, x))
    ensures Elems(Order(ps, x)) == Ancestors(ps, x)
    ensures forall j :: 0 <= j < |Order(ps, x)| ==> Order(ps, x)[j] < x
  {
    var r := Walk(ps, ps[x], {});
    WalkVisits(ps, ps[x], {});
    WalkSound(ps, ps[x], {}, x);
    WalkClosed(ps, ps[x], {});
    AncOfClosed(ps, ps[x], x, r.0);
    AncBelow(ps, ps[x], x);
  }

  /** Ancestors lie below the bound of their list. */
  lemma {:induction false} AncBelow(ps: seq<seq<nat>>, list: seq<nat>, bound: nat)
    requires ParentsBelow(ps) && bound <= |ps| && forall k :: 0 <= k < |list| ==> list[k] < bound
    ensures forall a :: a in AncOf(ps, list, bound) ==> a < bound
    decreases bound, |list|
  {
    if list != [] {
      AncBelow(ps, ps[list[0]], list[0]);
      AncBelow(ps, list[1..], bound);
    }
  }

  /** The nodes of `Order` lie below x and carry nine events each, so extension by them is defined. */
  lemma OrderBelow(ps: seq<seq<nat>>, x: nat)
    requires ParentsBelow(ps) && x < |ps|
    ensures forall j :: 0 <= j < |Order(ps, x)| ==> Order(ps, x)[j] < x
  {
    OrderIsAncestors(ps, x);
  }

  /** What `Build` leaves in node x: its own events extended by its distinct ancestors', in `ApplyParents` order. */
  function Flattened(evs: seq<seq<EventData>>, ps: seq<seq<nat>>, x: nat): (r: seq<EventData>)
    requires ParentsBelow(ps) && x < |ps| == |evs| && forall i :: 0 <= i < |evs| ==> |evs[i]| == Kinds
    ensures |r| == Kinds
  {
    OrderBelow(ps, x);
    ExtendAll(evs[x], Order(ps, x), evs)
  }

  /**
   * After flattening, every kind of node x holds its own callbacks followed by
   * those of each distinct ancestor, once each, in the order `ApplyParents`
   * visits them (for the unkeyed lists and every keyed slot).
   */
  lemma FlattenedLists(evs: seq<seq<EventData>>, ps: seq<seq<nat>>, x: nat, k: nat, i: nat)
    requires ParentsBelow(ps) && x < |ps| == |evs| && forall j :: 0 <= j < |evs| ==> |evs[j]| == Kinds
    requires k < Kinds
    ensures var order := Order(ps, x);
      NoDup(order) && Elems(order) == Ancestors(ps, x) && (forall j :: 0 <= j < |order| ==> order[j] < x) &&
      Flattened(evs, ps, x)[k].cxx == evs[x][k].cxx + CxxOf(order, evs, k) &&
      Flattened(evs, ps, x)[k].lua == evs[x][k].lua + LuaOf(order, evs, k) &&
      Slot(Flattened(evs, ps, x)[k].idCxx, i) == Slot(evs[x][k].idCxx, i) + SlotOf(order, evs, k, i) &&
      Slot(Flattened(evs, ps, x)[k].idLua, i) == Slot(evs[x][k].idLua, i) + LuaSlotOf(order, evs, k, i)
  {
    OrderIsAncestors(ps, x);
    ExtendAllLists(evs[x], Order(ps, x), evs, k, i);
  }

  /** A node with no ancestors is left as it is. */
  lemma FlattenedRoot(evs: seq<seq<EventData>>, ps: seq<seq<nat>>, x: nat)
    requires ParentsBelow(ps) && x < |ps| == |evs| && forall j :: 0 <= j < |evs| ==> |evs[j]| == Kinds
    requires ps[x] == []
    ensures Flattened(evs, ps, x) == evs[x]
  {
  }

  // ---------------------------------------------------------------------
  // Child edges and the post-order of `GetDeepestChild`.

  /** Every child edge points to a higher index inside the arena. */
  predicate ChildrenAbove(cs: seq<seq<nat>>)
  {
    forall i, k :: 0 <= i < |cs| && 0 <= k < |cs[i]| ==> i < cs[i][k] < |cs|
  }

  /** A child edge exists exactly where the matching parent edge does. */
  predicate Mirrored(ps: seq<seq<nat>>, cs: seq<seq<nat>>)
  {
    |ps| == |cs| && forall i, c :: 0 <= i < |cs| && 0 <= c < |cs| ==> (c in cs[i] <==> i in ps[c])
  }

  /** Every node but the root has a parent, as `CreateEvents` guarantees. */
  predicate Linked(ps: seq<seq<nat>>)
  {
    forall i :: 0 < i < |ps| ==> |ps[i]| > 0
  }

  /** A layer of distinct nodes, each placed after all of its children. */
  predicate ChildrenFirst(cs: seq<seq<nat>>, layer: seq<nat>)
  {
    NoDup(layer) &&
    forall i :: 0 <= i < |layer| ==> layer[i] < |cs| && forall c :: c in cs[layer[i]] ==> c in layer[..i]
  }

  /**
   * In such a layer every node comes before each of its ancestors that the
   * layer holds: node y lies in front of any ancestor at position q.
   */
  lemma {:induction false} BeforeAncestors(ps: seq<seq<nat>>, cs: seq<seq<nat>>, layer: seq<nat>, list: seq<nat>, bound: nat, y: nat, q: nat)
    requires ParentsBelow(ps) && Mirrored(ps, cs) && ChildrenFirst(cs, layer)
    requires bound <= |ps| && forall k :: 0 <= k < |list| ==> list[k] < bound
    requires y < |cs| && forall k :: 0 <= k < |list| ==> y in cs[list[k]]
    requires q < |layer| && layer[q] in AncOf(ps, list, bound)
    ensures y in layer[..q]
    decreases bound, |list|
  {
    var l := list[0];
    AncOfTail(ps, list, bound);
    if layer[q] == l {
      assert y in cs[layer[q]];
    } else if layer[q] in AncOf(ps, ps[l], l) {
      forall k | 0 <= k < |ps[l]|
        ensures l in cs[ps[l][k]]
      {
        assert ps[l][k] in ps[l];
      }
      BeforeAncestors(ps, cs, layer, ps[l], l, l, q);
      var q' :| 0 <= q' < q && layer[q'] == l;
      assert y in cs[layer[q']];
      assert layer[..q'] <= layer[..q];
    } else {
      BeforeAncestors(ps, cs, layer, list[1..], bound, y, q);
    }
  }

  /** No node of the layer at position j has an ancestor earlier in the layer. */
  lemma AncestorsLater(ps: seq<seq<nat>>, cs: seq<seq<nat>>, layer: seq<nat>, j: nat, a: nat)
    requires ParentsBelow(ps) && Mirrored(ps, cs) && ChildrenFirst(cs, layer)
    requires j < |layer| && a in Ancestors(ps, layer[j])
    ensures a !in layer[..j]
  {
    var y := layer[j];
    if a in layer[..j] {
      var q :| 0 <= q < j && layer[q] == a;
      forall k | 0 <= k < |ps[y]|
        ensures y in cs[ps[y][k]]
      {
        assert ps[y][k] in ps[y];
      }
      BeforeAncestors(ps, cs, layer, ps[y], y, y, q);
      assert false;
    }
  }

  /** In a linked graph, a layer that holds the root and each node's children holds every node. */
  lemma {:induction false} LinkedLayerComplete(ps: seq<seq<nat>>, cs: seq<seq<nat>>, layer: seq<nat>, x: nat)
    requires ParentsBelow(ps) && Mirrored(ps, cs) && Linked(ps) && ChildrenFirst(cs, layer) && 0 in layer
    requires x < |ps|
    ensures x in layer
    decreases x
  {
    if x > 0 {
      var p := ps[x][0];
      LinkedLayerComplete(ps, cs, layer, p);
      var q :| 0 <= q < |layer| && layer[q] == p;
      assert x in cs[p];
      assert x in layer[..q];
    }
  }

  /** Adding a last node whose children are all in the layer keeps the layer children-first. */
  lemma ChildrenFirstSnoc(cs: seq<seq<nat>>, layer: seq<nat>, e: nat)
    requires ChildrenFirst(cs, layer) && e < |cs| && e !in layer
    requires forall c :: c in cs[e] ==> c in layer
    ensures ChildrenFirst(cs, layer + [e])
  {
    var l := layer + [e];
    forall i | 0 <= i < |l|
      ensures l[i] < |cs| && forall c :: c in cs[l[i]] ==> c in l[..i]
    {
      if i < |layer| {
        assert l[..i] == layer[..i];
      } else {
        assert l[..i] == layer;
      }
    }
  }

  // ---------------------------------------------------------------------
  // The walk, one step at a time, as `ApplyParents` performs it.

  /** The walk of a list whose nodes lie below bound applies only nodes below bound. */
  lemma WalkBelow(ps: seq<seq<nat>>, list: seq<nat>, visited: set<nat>, bound: nat)
    requires ParentsBelow(ps) && visited <= Range(|ps|) && bound <= |ps| && forall k :: 0 <= k < |list| ==> list[k] < bound
    ensures forall j :: 0 <= j < |Walk(ps, list, visited).1| ==> Walk(ps, list, visited).1[j] < bound
  {
    WalkSound(ps, list, visited, bound);
    AncBelow(ps, list, bound);
  }

  /** The walk from position k of list: skip a visited node, otherwise apply it, walk its parents, then go on. */
  lemma WalkStep(ps: seq<seq<nat>>, list: seq<nat>, k: nat, v: set<nat>)
    requires ParentsBelow(ps) && v <= Range(|ps|) && k < |list| && forall j :: 0 <= j < |list| ==> list[j] < |ps|
    ensures list[k] in v ==> Walk(ps, list[k..], v) == Walk(ps, list[k + 1..], v)
    ensures list[k] !in v ==>
      var sub := Walk(ps, ps[list[k]], v + {list[k]});
      var rest := Walk(ps, list[k + 1..], sub.0);
      Walk(ps, list[k..], v) == (rest.0, [list[k]] + sub.1 + rest.1)
  {
    assert list[k..][0] == list[k] && list[k..][1..] == list[k + 1..];
  }

  /**
   * One pass of the loop of `ApplyParents` on the walk: list[k] is skipped
   * when already visited, else it and its own walk are the next step.
   */
  lemma WalkVisit(ps: seq<seq<nat>>, list: seq<nat>, k: nat, v: set<nat>, v': set<nat>, step: seq<nat>)
    requires ParentsBelow(ps) && v <= Range(|ps|) && k < |list| && forall j :: 0 <= j < |list| ==> list[j] < |ps|
    requires list[k] in v ==> v' == v && step == []
    requires list[k] !in v ==> var sub := Walk(ps, ps[list[k]], v + {list[k]}); v' == sub.0 && step == [list[k]] + sub.1
    ensures v <= v' <= Range(|ps|)
    ensures Walk(ps, list[k..], v).0 == Walk(ps, list[k + 1..], v').0
    ensures Walk(ps, list[k..], v).1 == step + Walk(ps, list[k + 1..], v').1
  {
    WalkStep(ps, list, k, v);
  }

  /** Every element of s is below bound. */
  predicate AllBelow(s: seq<nat>, bound: nat)
  {
    forall j :: 0 <= j < |s| ==> s[j] < bound
  }

  lemma AllBelowAppend(a: seq<nat>, b: seq<nat>, bound: nat)
    requires AllBelow(a, bound) && AllBelow(b, bound)
    ensures AllBelow(a + b, bound)
  {
  }

  lemma Reassociate<T>(acc: seq<T>, step: seq<T>, rest: seq<T>)
    ensures acc + (step + rest) == acc + step + rest
  {
  }

  /** Extending by acc, then by p, then by sub is extending by their concatenation. */
  lemma ExtendStep(ev: seq<EventData>, acc: seq<nat>, p: nat, sub: seq<nat>, evs: seq<seq<EventData>>)
    requires |ev| == Kinds && p < |evs| && |evs[p]| == Kinds
    requires forall j :: 0 <= j < |acc| ==> acc[j] < |evs| && |evs[acc[j]]| == Kinds
    requires forall j :: 0 <= j < |sub| ==> sub[j] < |evs| && |evs[sub[j]]| == Kinds
    ensures ExtendAll(ev, acc + [p] + sub, evs) == ExtendAll(ApplyExtensions(ExtendAll(ev, acc, evs), evs[p]), sub, evs)
  {
    ExtendAllAppend(ev, acc + [p], sub, evs);
    ExtendAllAppend(ev, acc, [p], evs);
    assert [p][1..] == [];
  }

  // ---------------------------------------------------------------------
  // Registration on a node.

  /** The ids of the nodes a list of handles points at. */
  function Nodes(hs: seq<Handle>): (r: seq<nat>)
    requires forall k :: 0 <= k < |hs| ==> hs[k].storage.Some?
    ensures |r| == |hs| && forall k :: 0 <= k < |hs| ==> r[k] == hs[k].storage.value
  {
    seq(|hs|, k requires 0 <= k < |hs| && hs[k].storage.Some? => hs[k].storage.value)
  }

  /** The arena with the event of one kind of one node replaced. */
  function Put(evs: seq<seq<EventData>>, n: nat, kind: nat, e: EventData): seq<seq<EventData>>
    requires n < |evs| && kind < |evs[n]|
  {
    evs[n := evs[n][kind := e]]
  }

  /** Writing back what is there changes nothing. */
  lemma PutSame(evs: seq<seq<EventData>>, n: nat, kind: nat)
    requires n < |evs| && kind < |evs[n]|
    ensures Put(evs, n, kind, evs[n][kind]) == evs
  {
    assert evs[n][kind := evs[n][kind]] == evs[n];
  }

  /** A second write to the same event replaces the first. */
  lemma PutPut(evs: seq<seq<EventData>>, n: nat, kind: nat, a: EventData, b: EventData)
    requires n < |evs| && kind < |evs[n]|
    ensures Put(Put(evs, n, kind, a), n, kind, b) == Put(evs, n, kind, b)
  {
    assert evs[n][kind := a][kind := b] == evs[n][kind := b];
  }

  /** The movement opcodes `OnMovementPacket` registers its wrapper under, in its order. */
  const MovementOpcodes: seq<nat> := [
    Opcodes.MSG_MOVE_START_FORWARD, Opcodes.MSG_MOVE_START_BACKWARD, Opcodes.MSG_MOVE_STOP,
    Opcodes.MSG_MOVE_START_STRAFE_LEFT, Opcodes.MSG_MOVE_START_STRAFE_RIGHT, Opcodes.MSG_MOVE_STOP_STRAFE,
    Opcodes.MSG_MOVE_JUMP, Opcodes.MSG_MOVE_START_TURN_LEFT, Opcodes.MSG_MOVE_START_TURN_RIGHT,
    Opcodes.MSG_MOVE_STOP_TURN, Opcodes.MSG_MOVE_START_PITCH_UP, Opcodes.MSG_MOVE_START_PITCH_DOWN,
    Opcodes.MSG_MOVE_STOP_PITCH, Opcodes.MSG_MOVE_SET_RUN_MODE, Opcodes.MSG_MOVE_SET_WALK_MODE,
    Opcodes.MSG_MOVE_FALL_LAND, Opcodes.MSG_MOVE_START_SWIM, Opcodes.MSG_MOVE_STOP_SWIM,
    Opcodes.MSG_MOVE_SET_FACING, Opcodes.MSG_MOVE_SET_PITCH, Opcodes.MSG_MOVE_HEARTBEAT,
    Opcodes.MSG_MOVE_START_ASCEND, Opcodes.MSG_MOVE_STOP_ASCEND, Opcodes.MSG_MOVE_START_DESCEND]

  /** The 24 movement opcodes are distinct, so the wrapper lands in each slot once. */
  lemma MovementOpcodesDistinct()
    ensures |MovementOpcodes| == 24 && NoDup(MovementOpcodes)
  {
    assert Increasing(MovementOpcodes);
    IncreasingNoDup(MovementOpcodes);
  }

  predicate Increasing(s: seq<nat>)
  {
    forall i :: 0 <= i < |s| - 1 ==> s[i] < s[i + 1]
  }

  /** A list whose neighbours increase repeats nothing. */
  lemma IncreasingNoDup(s: seq<nat>)
    requires Increasing(s)
    ensures NoDup(s)
  {
    forall i, j | 0 <= i < j < |s|
      ensures s[i] < s[j]
    {
      var k := i + 1;
      while k < j
        invariant i < k <= j && s[i] < s[k]
      {
        k := k + 1;
      }
    }
  }

  /** A list without repetition names each id at most once. */
  lemma {:induction false} CountDistinct(ids: seq<nat>, i: nat)
    requires NoDup(ids)
    ensures Count(ids, i) == if i in ids then 1 else 0
    decreases |ids|
  {
    if ids != [] {
      var tail := ids[1..];
      assert ids == [ids[0]] + tail;
      assert multiset(ids) == multiset([ids[0]]) + multiset(tail);
      assert NoDup(tail) by {
        forall a, b | 0 <= a < b < |tail|
          ensures tail[a] != tail[b]
        {
          assert tail[a] == ids[a + 1] && tail[b] == ids[b + 1];
        }
      }
      assert ids[0] !in tail by {
        forall b | 0 <= b < |tail|
          ensures tail[b] != ids[0]
        {
          assert tail[b] == ids[b + 1];
        }
      }
      CountDistinct(tail, i);
    }
  }

  /** Registering under distinct ids appends cb once to each of their slots and leaves every other slot as it was. */
  lemma AddKeyedAllDistinct(t: seq<seq<CallbackId>>, ids: seq<nat>, cb: CallbackId, i: nat)
    requires NoDup(ids)
    ensures Slot(AddKeyedAll(t, ids, cb), i) == Slot(t, i) + (if i in ids then [cb] else [])
  {
    AddKeyedAllSlots(t, ids, cb, i);
    CountDistinct(ids, i);
    var s := Slot(AddKeyedAll(t, ids, cb), i);
    var n := |Slot(t, i)|;
    if i in ids {
      assert s == s[..n] + [s[n]];
    } else {
      assert s == s[..n];
    }
  }

  // ---------------------------------------------------------------------
  // Named nodes.

  /** `Register`'s insertion into the name table: refused when the key is taken. */
  function Bind(named: map<string, nat>, key: string, node: nat): (r: Result<map<string, nat>>)
  {
    if key in named then Failure("Tried to register event handler " + key + " twice!")
    else Success(named[key := node])
  }

  /** `GetEvents`'s lookup: refused for a name nobody registered. */
  function Lookup(named: map<string, nat>, key: string): (r: Result<nat>)
  {
    if key in named then Success(named[key]) else Failure("Attempted to load non-existing events " + key)
  }

  /**
   * A key can be bound once: binding a free key makes it look up the node
   * and leaves every other key as it was; binding a taken key fails and
   * the old binding stays.
   */
  lemma BindLookup(named: map<string, nat>, key: string, node: nat, other: string)
    ensures Bind(named, key, node).Success? <==> Lookup(named, key).Failure?
    ensures Bind(named, key, node).Success? ==> Lookup(Bind(named, key, node).value, key) == Success(node)
    ensures Bind(named, key, node).Success? && other != key ==> Lookup(Bind(named, key, node).value, other) == Lookup(named, other)
  {
  }

  // ---------------------------------------------------------------------
  // The manager.

  class ProfileMgr {
    /** The nine events of each node, by node id. */
    var events: seq<seq<EventData>>
    /** `m_parents` of each node, in the order given to `CreateEvents`. */
    var parents: seq<seq<nat>>
    /** `m_children` of each node, in creation order. */
    var children: seq<seq<nat>>
    /** `m_root` of each node: its behaviour tree, if one was set. */
    var roots: seq<Option<TreeId>>
    /** `m_namedEvents`. */
    var named: map<string, nat>

    ghost predicate Valid()
      reads this
    {
      Shape() && |events| == |parents| && forall i :: 0 <= i < |events| ==> |events[i]| == Kinds
    }

    /** The node graph and the name table, which extending events leaves alone. */
    ghost predicate Shape()
      reads this`parents, this`children, this`roots, this`named
    {
      |parents| >= 1 && |children| == |parents| && |roots| == |parents| &&
      ParentsBelow(parents) && ChildrenAbove(children) && Mirrored(parents, children) &&
      (forall key :: key in named ==> named[key] < |parents|)
    }

    /** The state `Reset` leaves: the root alone, named as the root. */
    ghost predicate Fresh()
      reads this
    {
      events == [NewEvents] && parents == [[]] && children == [[]] && roots == [None] && named == map[RootName := 0]
    }

    constructor ()
      ensures Valid() && Fresh() && Linked(parents)
    {
      events, parents, children, roots := [NewEvents], [[]], [[]], [None];
      named := map[RootName := 0];
    }

    /** `Reset`: forgets every node and name but a new root. */
    method Reset()
      modifies this
      ensures Valid() && Fresh() && Linked(parents)
    {
      events, parents, children, roots := [NewEvents], [[]], [[]], [None];
      named := map[RootName := 0];
    }

    /** `GetRootEvent`: a handle on node 0. */
    function GetRootEvent(): (h: Handle)
      ensures IsLoaded(h) && h.storage.value == 0
    {
      Handle(Some(0))
    }

    /**
     * `CreateEvents`: a new node with empty events, whose parents are the
     * given nodes in order (the root when none are given); each parent gets
     * the new node appended to its children once per time it is listed.
     */
    method CreateEvents(ps: seq<Handle>) returns (h: Handle)
      requires Valid() && forall k :: 0 <= k < |ps| ==> ps[k].storage.Some? && ps[k].storage.value < |events|
      modifies this`events, this`parents, this`children, this`roots
      ensures Valid() && (old(Linked(parents)) ==> Linked(parents))
      ensures var n := old(|events|); var eff := if ps == [] then [0] else Nodes(ps);
        h == Handle(Some(n)) && events == old(events) + [NewEvents] && roots == old(roots) + [None] &&
        parents == old(parents) + [eff] && children == Grown(old(children), eff, n) + [[]]
    {
      var n := |events|;
      ghost var ids := Nodes(ps);
      ghost var cs := children;
      events, roots, parents, children := events + [NewEvents], roots + [None], parents + [[]], children + [[]];
      GrownNone(cs, n);
      for k := 0 to |ps|
        invariant events == old(events) + [NewEvents] && roots == old(roots) + [None]
        invariant parents == old(parents) + [ids[..k]]
        invariant children == Grown(cs, ids[..k], n) + [[]]
      {
        var p := ps[k].storage.value;
        SnocLast(old(parents), ids[..k], p);
        parents := parents[n := parents[n] + [p]];
        GrownSnoc(cs, ids[..k], p, n);
        children := children[p := children[p] + [n]];
        assert ids[..k + 1] == ids[..k] + [p];
      }
      assert ids[..|ps|] == ids;
      if |ps| == 0 {
        SnocLast(old(parents), [], 0);
        parents := parents[n := parents[n] + [0]];
        GrownSnoc(cs, [], 0, n);
        children := children[0 := children[0] + [n]];
        assert [] + [0] == [0];
      }
      ghost var eff := if ps == [] then [0] else ids;
      GrownGraph(old(parents), cs, eff);
      h := Handle(Some(n));
    }

    /** `Register`: names the node "mod:name", refusing a name already taken. */
    method Register(h: Handle, mod: string, name: string) returns (r: Result<Handle>)
      requires Valid() && h.storage.Some? && h.storage.value < |events|
      modifies this`named
      ensures Valid()
      ensures var b := Bind(old(named), mod + ":" + name, h.storage.value);
        (b.Success? ==> r == Success(h) && named == b.value) &&
        (b.Failure? ==> r == Failure(b.error) && named == old(named))
    {
      var key := mod + ":" + name;
      if key in named {
        return Failure("Tried to register event handler " + key + " twice!");
      }
      named := named[key := h.storage.value];
      r := Success(h);
    }

    /** `GetEvents`: the node registered under the name. */
    method GetEvents(name: string) returns (r: Result<Handle>)
      ensures var l := Lookup(named, name);
        (l.Success? ==> r == Success(Handle(Some(l.value)))) && (l.Failure? ==> r == Failure(l.error))
    {
      if name !in named {
        return Failure("Attempted to load non-existing events " + name);
      }
      r := Success(Handle(Some(named[name])));
    }

    /** `SetBehaviorRoot`: installs the node's behaviour tree. */
    method SetBehaviorRoot(h: Handle, root: TreeId)
      requires Valid() && h.storage.Some? && h.storage.value < |events|
      modifies this`roots
      ensures Valid() && roots == old(roots)[h.storage.value := Some(root)]
    {
      roots := roots[h.storage.value := Some(root)];
    }

    /** `name(cb)`: appends a C++ callback to the node's event of that kind. */
    method On(h: Handle, kind: nat, cb: CallbackId)
      requires Valid() && h.storage.Some? && h.storage.value < |events| && kind < Kinds
      modifies this`events
      ensures Valid()
      ensures var n := h.storage.value; var e := old(events)[n][kind];
        events == Put(old(events), n, kind, e.(cxx := e.cxx + [cb]))
    {
      var n := h.storage.value;
      var e := events[n][kind];
      events := Put(events, n, kind, e.(cxx := e.cxx + [cb]));
    }

    /** `Lname(cb)`: appends a Lua callback to the node's event of that kind. */
    method LOn(h: Handle, kind: nat, cb: CallbackId)
      requires Valid() && h.storage.Some? && h.storage.value < |events| && kind < Kinds
      modifies this`events
      ensures Valid()
      ensures var n := h.storage.value; var e := old(events)[n][kind];
        events == Put(old(events), n, kind, e.(lua := e.lua + [cb]))
    {
      var n := h.storage.value;
      var e := events[n][kind];
      events := Put(events, n, kind, e.(lua := e.lua + [cb]));
    }

    /** `OnWorldPacket(id, cb)`: appends a C++ callback to the opcode's slot. */
    method OnWorldPacketId(h: Handle, id: nat, cb: CallbackId)
      requires Valid() && h.storage.Some? && h.storage.value < |events|
      modifies this`events
      ensures Valid()
      ensures var n := h.storage.value; var e := old(events)[n][OnWorldPacket];
        events == Put(old(events), n, OnWorldPacket, e.(idCxx := AddKeyed(e.idCxx, id, cb)))
    {
      var n := h.storage.value;
      var e := events[n][OnWorldPacket];
      events := Put(events, n, OnWorldPacket, e.(idCxx := AddKeyed(e.idCxx, id, cb)));
    }

    /** `OnWorldPacket(ids, cb)`: the same callback under each opcode of the list, in order. */
    method OnWorldPacketIds(h: Handle, ids: seq<nat>, cb: CallbackId)
      requires Valid() && h.storage.Some? && h.storage.value < |events|
      modifies this`events
      ensures Valid()
      ensures var n := h.storage.value; var e := old(events)[n][OnWorldPacket];
        events == Put(old(events), n, OnWorldPacket, e.(idCxx := AddKeyedAll(e.idCxx, ids, cb)))
    {
      var n := h.storage.value;
      ghost var e := events[n][OnWorldPacket];
      ghost var t := e.idCxx;
      PutSame(events, n, OnWorldPacket);
      for k := 0 to |ids|
        invariant Valid()
        invariant events == Put(old(events), n, OnWorldPacket, e.(idCxx := t))
        invariant AddKeyedAll(t, ids[k..], cb) == AddKeyedAll(e.idCxx, ids, cb)
      {
        OnWorldPacketId(h, ids[k], cb);
        PutPut(old(events), n, OnWorldPacket, e.(idCxx := t), e.(idCxx := AddKeyed(t, ids[k], cb)));
        t := AddKeyed(t, ids[k], cb);
        assert ids[k..][1..] == ids[k + 1..];
      }
    }

    /** `_LOnWorldPacket(id, cb)`: appends a Lua callback to the opcode's slot. */
    method LOnWorldPacketId(h: Handle, id: nat, cb: CallbackId)
      requires Valid() && h.storage.Some? && h.storage.value < |events|
      modifies this`events
      ensures Valid()
      ensures var n := h.storage.value; var e := old(events)[n][OnWorldPacket];
        events == Put(old(events), n, OnWorldPacket, e.(idLua := AddKeyed(e.idLua, id, cb)))
    {
      var n := h.storage.value;
      var e := events[n][OnWorldPacket];
      events := Put(events, n, OnWorldPacket, e.(idLua := AddKeyed(e.idLua, id, cb)));
    }

    /** `LidOnWorldPacket(obj, cb)`: a number is one opcode, a table a list of them, anything else nothing. */
    method LidOnWorldPacket(h: Handle, obj: LuaObject, cb: CallbackId)
      requires Valid() && h.storage.Some? && h.storage.value < |events|
      modifies this`events
      ensures Valid()
      ensures var n := h.storage.value; var e := old(events)[n][OnWorldPacket];
        events == Put(old(events), n, OnWorldPacket, e.(idLua := AddKeyedAll(e.idLua, LuaIds(obj), cb)))
    {
      var n := h.storage.value;
      ghost var e := events[n][OnWorldPacket];
      PutSame(events, n, OnWorldPacket);
      match obj
      case Number(id) =>
        LOnWorldPacketId(h, id, cb);
      case Table(entries) =>
        ghost var t := e.idLua;
        for k := 0 to |entries|
          invariant Valid()
          invariant events == Put(old(events), n, OnWorldPacket, e.(idLua := t))
          invariant AddKeyedAll(t, entries[k..], cb) == AddKeyedAll(e.idLua, entries, cb)
        {
          LOnWorldPacketId(h, entries[k], cb);
          PutPut(old(events), n, OnWorldPacket, e.(idLua := t), e.(idLua := AddKeyed(t, entries[k], cb)));
          t := AddKeyed(t, entries[k], cb);
          assert entries[k..][1..] == entries[k + 1..];
        }
      case Other =>
    }

    /**
     * `OnMovementPacket`: one wrapper callback that decodes a movement
     * packet, registered once under each of the 24 movement opcodes and
     * under no other.
     */
    method OnMovementPacket(h: Handle, wrapper: CallbackId)
      requires Valid() && h.storage.Some? && h.storage.value < |events|
      modifies this`events
      ensures Valid()
      ensures var n := h.storage.value; var e := old(events)[n][OnWorldPacket];
        events == Put(old(events), n, OnWorldPacket, e.(idCxx := events[n][OnWorldPacket].idCxx))
      ensures var n := h.storage.value; var e := old(events)[n][OnWorldPacket];
        forall i: nat :: Slot(events[n][OnWorldPacket].idCxx, i) == Slot(e.idCxx, i) + (if i in MovementOpcodes then [wrapper] else [])
    {
      OnWorldPacketIds(h, MovementOpcodes, wrapper);
      ghost var e := old(events)[h.storage.value][OnWorldPacket];
      assert events[h.storage.value][OnWorldPacket] == e.(idCxx := AddKeyedAll(e.idCxx, MovementOpcodes, wrapper));
      MovementOpcodesDistinct();
      forall i: nat
        ensures Slot(AddKeyedAll(old(events)[h.storage.value][OnWorldPacket].idCxx, MovementOpcodes, wrapper), i)
          == Slot(old(events)[h.storage.value][OnWorldPacket].idCxx, i) + (if i in MovementOpcodes then [wrapper] else [])
      {
        AddKeyedAllDistinct(old(events)[h.storage.value][OnWorldPacket].idCxx, MovementOpcodes, wrapper, i);
      }
    }

    /**
     * `OnUpdateData`: a wrapper that decodes a plain update packet under
     * SMSG_UPDATE_OBJECT, then one that decodes a compressed one under
     * SMSG_COMPRESSED_UPDATE_OBJECT.
     */
    method OnUpdateData(h: Handle, plain: CallbackId, compressed: CallbackId)
      requires Valid() && h.storage.Some? && h.storage.value < |events|
      modifies this`events
      ensures Valid()
      ensures var n := h.storage.value; var e := old(events)[n][OnWorldPacket];
        events == Put(old(events), n, OnWorldPacket, e.(idCxx := events[n][OnWorldPacket].idCxx)) &&
        forall i: nat :: Slot(events[n][OnWorldPacket].idCxx, i) == Slot(e.idCxx, i) +
          (if i == Opcodes.SMSG_UPDATE_OBJECT then [plain] else if i == Opcodes.SMSG_COMPRESSED_UPDATE_OBJECT then [compressed] else [])
    {
      ghost var e := events[h.storage.value][OnWorldPacket];
      ghost var t := e.idCxx;
      OnWorldPacketId(h, Opcodes.SMSG_UPDATE_OBJECT, plain);
      ghost var t1 := events[h.storage.value][OnWorldPacket].idCxx;
      OnWorldPacketId(h, Opcodes.SMSG_COMPRESSED_UPDATE_OBJECT, compressed);
      ghost var t2 := AddKeyed(t1, Opcodes.SMSG_COMPRESSED_UPDATE_OBJECT, compressed);
      PutPut(old(events), h.storage.value, OnWorldPacket, e.(idCxx := t1), e.(idCxx := t2));
      assert events[h.storage.value][OnWorldPacket].idCxx == t2;
      AddKeyedSlots(t, Opcodes.SMSG_UPDATE_OBJECT, plain);
      AddKeyedSlots(t1, Opcodes.SMSG_COMPRESSED_UPDATE_OBJECT, compressed);
    }

    /** Extends the target node by one parent's nine events, as `apply_extensions` does. */
    method ApplyExtensionsFrom(target: nat, parent: nat)
      requires Valid() && target < |events| && parent < |events|
      modifies this`events
      ensures Valid()
      ensures events == old(events)[target := ApplyExtensions(old(events)[target], old(events)[parent])]
    {
      events := events[target := ApplyExtensions(events[target], events[parent])];
    }

    /**
     * `ApplyParents(target, cur, visited)`: walks cur's parents in order,
     * handing each one not yet visited to `ApplyParent`; the visited set is
     * shared by the whole walk.
     */
    method ApplyParents(target: nat, cur: nat, visited: set<nat>) returns (visited': set<nat>)
      requires Valid() && cur <= target < |events| && visited <= Range(|events|)
      modifies this`events
      ensures Valid() && |events| == old(|events|)
      ensures var w := Walk(parents, parents[cur], visited);
        visited' == w.0 && events == old(events)[target := ExtendAll(old(events)[target], w.1, old(events))]
      decreases Range(|events|) - visited, 2
    {
      var list := parents[cur];
      ghost var acc: seq<nat> := [];
      visited' := visited;
      for k := 0 to |list|
        invariant Valid() && |events| == old(|events|) && visited <= visited' <= Range(|events|)
        invariant AllBelow(acc, cur)
        invariant Walk(parents, list, visited).0 == Walk(parents, list[k..], visited').0
        invariant Walk(parents, list, visited).1 == acc + Walk(parents, list[k..], visited').1
        invariant events == old(events)[target := ExtendAll(old(events)[target], acc, old(events))]
      {
        visited', acc := ApplyParentAt(target, cur, k, visited', old(events), acc);
      }
      assert list[|list|..] == [];
      assert Walk(parents, [], visited') == (visited', []);
      assert acc + [] == acc;
    }

    /**
     * One turn of `ApplyParents`'s loop: the k-th parent of cur goes to
     * `ApplyParent` unless it is already visited. `acc` is what target has
     * been extended by since `start`.
     */
    method ApplyParentAt(target: nat, cur: nat, k: nat, visited: set<nat>, ghost start: seq<seq<EventData>>, ghost acc: seq<nat>)
      returns (visited': set<nat>, ghost acc': seq<nat>)
      requires Valid() && cur <= target < |events| && k < |parents[cur]| && visited <= Range(|events|)
      requires |start| == |events| && forall i :: 0 <= i < |start| ==> |start[i]| == Kinds
      requires AllBelow(acc, cur) && events == start[target := ExtendAll(start[target], acc, start)]
      modifies this`events
      ensures Valid() && |events| == old(|events|) && visited <= visited' <= Range(|events|) && AllBelow(acc', cur)
      ensures Walk(parents, parents[cur][k..], visited).0 == Walk(parents, parents[cur][k + 1..], visited').0
      ensures acc + Walk(parents, parents[cur][k..], visited).1 == acc' + Walk(parents, parents[cur][k + 1..], visited').1
      ensures events == start[target := ExtendAll(start[target], acc', start)]
      decreases Range(|events|) - visited, 1
    {
      var list := parents[cur];
      var p := list[k];
      ghost var step: seq<nat> := [];
      visited' := visited;
      if p !in visited {
        ghost var before := events;
        step := [p] + Walk(parents, parents[p], visited + {p}).1;
        visited' := ApplyParent(target, p, visited);
        Compose(start, before, target, acc, step);
      } else {
        assert acc + step == acc;
      }
      assert AllBelow(step, cur);
      AllBelowAppend(acc, step, cur);
      WalkVisit(parents, list, k, visited, visited', step);
      Reassociate(acc, step, Walk(parents, list[k + 1..], visited').1);
      acc' := acc + step;
    }

    /**
     * The body of `ApplyParents` for one parent p not yet visited: marks it
     * visited, extends target by it, then walks p's own parents.
     */
    method ApplyParent(target: nat, p: nat, visited: set<nat>) returns (visited': set<nat>)
      requires Valid() && p < target < |events| && visited <= Range(|events|) && p !in visited
      modifies this`events
      ensures Valid() && |events| == old(|events|)
      ensures var w := Walk(parents, parents[p], visited + {p});
        visited' == w.0 && (forall j :: 0 <= j < |w.1| ==> w.1[j] < p) &&
        events == old(events)[target := ExtendAll(old(events)[target], [p] + w.1, old(events))]
      decreases Range(|events|) - visited, 0
    {
      ghost var sub := Walk(parents, parents[p], visited + {p});
      WalkBelow(parents, parents[p], visited + {p}, p);
      ApplyExtensionsFrom(target, p);
      ghost var before := events;
      assert ExtendAll(old(events)[target], [p], old(events)) == before[target];
      visited' := ApplyParents(target, p, visited + {p});
      Compose(old(events), before, target, [p], sub.1);
    }

    /** `GetDeepestChild`'s memo: no layer yet, or one children-first layer holding exactly the cached nodes, all at depth 0. */
    ghost predicate Memo(layers: seq<seq<nat>>, cached: map<nat, nat>)
      reads this
    {
      (layers == [] && cached == map[]) ||
      (|layers| == 1 && ChildrenFirst(children, layers[0]) && Elems(layers[0]) == cached.Keys &&
       forall y :: y in cached ==> cached[y] == 0)
    }

    /**
     * `GetDeepestChild`: visits the children first, then files the node in
     * the layer of its deepest child. A leaf is at depth 0 and a node at the
     * depth of its deepest child, so every depth is 0: the nodes reachable
     * from e land in a single layer, each after all of its children.
     */
    method GetDeepestChild(e: nat, layers: seq<seq<nat>>, cached: map<nat, nat>) returns (depth: nat, layers': seq<seq<nat>>, cached': map<nat, nat>)
      requires Valid() && e < |events| && Memo(layers, cached)
      ensures depth == 0 && |layers'| == 1 && Memo(layers', cached') && e in cached'
      ensures cached.Keys <= cached'.Keys && forall y :: y in cached' && y !in cached ==> e <= y
      ensures layers != [] ==> layers[0] <= layers'[0]
      decreases |events| - e
    {
      if e in cached {
        return cached[e], layers, cached;
      }
      var max := 0;
      layers', cached' := layers, cached;
      for k := 0 to |children[e]|
        invariant max == 0 && Memo(layers', cached') && cached.Keys <= cached'.Keys
        invariant forall y :: y in cached' && y !in cached ==> e < y
        invariant layers != [] ==> |layers'| == 1 && layers[0] <= layers'[0]
        invariant forall j :: 0 <= j < k ==> children[e][j] in cached'
      {
        var d;
        assert e < children[e][k];
        d, layers', cached' := GetDeepestChild(children[e][k], layers', cached');
        if d > max {
          max := d;
        }
      }
      if max >= |layers'| {
        layers' := layers' + seq(max + 1 - |layers'|, _ => []);
        assert layers'[0] == [] && cached' == map[];
        assert Elems([]) == {};
      }
      assert ChildrenFirst(children, layers'[0]) && Elems(layers'[0]) == cached'.Keys;
      assert e !in cached';
      forall c | c in children[e]
        ensures c in layers'[0]
      {
        var j :| 0 <= j < |children[e]| && children[e][j] == c;
        assert c in cached'.Keys;
      }
      ChildrenFirstSnoc(children, layers'[max], e);
      layers' := layers'[max := layers'[max] + [e]];
      cached' := cached'[e := max];
      depth := max;
    }

    /** Flattens the nodes of a children-first layer in turn, each by `ApplyParents` from an empty visited set. */
    method ApplyLayer(layer: seq<nat>)
      requires Valid() && ChildrenFirst(children, layer)
      modifies this`events
      ensures Valid() && |events| == old(|events|)
      ensures forall x :: 0 <= x < |events| ==>
        events[x] == if x in layer then Flattened(old(events), parents, x) else old(events)[x]
    {
      for j := 0 to |layer|
        invariant Valid() && |events| == old(|events|)
        invariant forall x :: 0 <= x < |events| ==>
          events[x] == if x in layer[..j] then Flattened(old(events), parents, x) else old(events)[x]
      {
        var x := layer[j];
        ghost var before := events;
        var _ := ApplyParents(x, x, {});
        FlattenNext(old(events), before, parents, children, layer, j);
        assert layer[..j + 1] == layer[..j] + [x];
      }
    }

    /**
     * `Build`: files the nodes reachable from the root children first, then
     * flattens each one, so every node reads its ancestors before they are
     * flattened themselves; then drops all edges. When every node but the
     * root has a parent, as `CreateEvents` ensures, every node is flattened.
     */
    method Build() returns (ghost layer: seq<nat>)
      requires Valid()
      modifies this`events, this`parents, this`children
      ensures Valid() && |events| == old(|events|)
      ensures NoDup(layer) && 0 in layer && forall j :: 0 <= j < |layer| ==> layer[j] < |events|
      ensures forall x :: 0 <= x < |events| ==>
        events[x] == if x in layer then Flattened(old(events), old(parents), x) else old(events)[x]
      ensures old(Linked(parents)) ==> forall x :: 0 <= x < |events| ==> x in layer
      ensures forall x :: 0 <= x < |events| ==> parents[x] == [] && children[x] == []
    {
      var _, layers, _ := GetDeepestChild(0, [], map[]);
      layer := layers[0];
      for d := 0 to |layers|
        invariant Valid() && |events| == old(|events|) && parents == old(parents) && children == old(children)
        invariant d == 0 ==> events == old(events)
        invariant d == 1 ==> forall x :: 0 <= x < |events| ==>
          events[x] == if x in layer then Flattened(old(events), old(parents), x) else old(events)[x]
      {
        ApplyLayer(layers[d]);
      }
      if Linked(parents) {
        forall x | 0 <= x < |events|
          ensures x in layer
        {
          LinkedLayerComplete(parents, children, layer, x);
        }
      }
      ClearEdges();
    }

    /** The clean-up at the end of `Build`: every node's parent and child lists emptied. */
    method ClearEdges()
      requires |parents| == |children| == |events|
      modifies this`parents, this`children
      ensures |parents| == |children| == |events|
      ensures forall x :: 0 <= x < |events| ==> parents[x] == [] && children[x] == []
    {
      for i := 0 to |events|
        invariant |parents| == |children| == |events|
        invariant forall x :: 0 <= x < i ==> parents[x] == [] && children[x] == []
      {
        parents := parents[i := []];
        children := children[i := []];
      }
    }
  }

  /** Appending to the last list of a sequence of lists. */
  lemma SnocLast(xs: seq<seq<nat>>, a: seq<nat>, p: nat)
    ensures (xs + [a])[|xs| := a + [p]] == xs + [a + [p]]
  {
  }

  /** Each node's children with node n appended once per time the node is listed in ids. */
  function Grown(cs: seq<seq<nat>>, ids: seq<nat>, n: nat): (r: seq<seq<nat>>)
    ensures |r| == |cs|
  {
    seq(|cs|, i requires 0 <= i < |cs| => cs[i] + seq(Count(ids, i), _ => n))
  }

  lemma GrownNone(cs: seq<seq<nat>>, n: nat)
    ensures Grown(cs, [], n) == cs
  {
    forall i | 0 <= i < |cs|
      ensures Grown(cs, [], n)[i] == cs[i]
    {
      assert seq(Count([], i), _ => n) == [];
    }
  }

  /** Listing one more parent p appends n to p's children only. */
  lemma GrownSnoc(cs: seq<seq<nat>>, ids: seq<nat>, p: nat, n: nat)
    requires p < |cs|
    ensures var g := Grown(cs, ids, n) + [[]]; g[p := g[p] + [n]] == Grown(cs, ids + [p], n) + [[]]
  {
    assert multiset(ids + [p]) == multiset(ids) + multiset{p};
    var m := Count(ids, p);
    assert seq(m + 1, _ => n) == seq(m, _ => n) + [n];
    var g, h := Grown(cs, ids, n) + [[]], Grown(cs, ids + [p], n) + [[]];
    forall i | 0 <= i < |g|
      ensures g[p := g[p] + [n]][i] == h[i]
    {
      if i < |cs| && i != p {
        assert Count(ids + [p], i) == Count(ids, i);
      }
    }
  }

  /** Node n among i's extra children exactly when i is listed. */
  lemma GrownHas(cs: seq<seq<nat>>, eff: seq<nat>, n: nat, i: nat, c: nat)
    requires i < |cs|
    ensures c in Grown(cs, eff, n)[i] <==> c in cs[i] || (c == n && i in eff)
  {
    var extra := seq(Count(eff, i), _ => n);
    assert Grown(cs, eff, n)[i] == cs[i] + extra;
    assert i in eff <==> Count(eff, i) > 0;
    if c in extra {
      var t :| 0 <= t < |extra| && extra[t] == c;
    }
    if c == n && Count(eff, i) > 0 {
      assert extra[0] == n;
    }
  }

  /** Adding a node below its parents keeps the edges downward and mirrored, and a linked graph linked. */
  lemma GrownGraph(ps: seq<seq<nat>>, cs: seq<seq<nat>>, eff: seq<nat>)
    requires ParentsBelow(ps) && ChildrenAbove(cs) && Mirrored(ps, cs)
    requires forall j :: 0 <= j < |eff| ==> eff[j] < |ps|
    ensures var ps', cs' := ps + [eff], Grown(cs, eff, |cs|) + [[]];
      ParentsBelow(ps') && ChildrenAbove(cs') && Mirrored(ps', cs') &&
      (Linked(ps) && eff != [] ==> Linked(ps'))
  {
    var n := |cs|;
    var ps', cs' := ps + [eff], Grown(cs, eff, n) + [[]];
    forall i, k | 0 <= i < |cs'| && 0 <= k < |cs'[i]|
      ensures i < cs'[i][k] < |cs'|
    {
      GrownHas(cs, eff, n, i, cs'[i][k]);
      assert cs'[i][k] in cs'[i];
    }
    forall i, c | 0 <= i < n + 1 && 0 <= c < n + 1
      ensures c in cs'[i] <==> i in ps'[c]
    {
      if i < n {
        GrownHas(cs, eff, n, i, c);
        if c == n {
          assert n !in cs[i];
        }
      } else {
        assert c < n ==> i !in ps[c];
      }
    }
  }

  /**
   * Extending target by step in an arena where target was already extended
   * by acc, and nothing else changed, extends it by acc and then step.
   */
  lemma Compose(start: seq<seq<EventData>>, before: seq<seq<EventData>>, target: nat, acc: seq<nat>, step: seq<nat>)
    requires target < |start| && forall i :: 0 <= i < |start| ==> |start[i]| == Kinds
    requires forall j :: 0 <= j < |acc| ==> acc[j] < target
    requires forall j :: 0 <= j < |step| ==> step[j] < target
    requires before == start[target := ExtendAll(start[target], acc, start)]
    ensures before[target := ExtendAll(before[target], step, before)] == start[target := ExtendAll(start[target], acc + step, start)]
  {
    ExtendAllAgree(before[target], step, before, start);
    ExtendAllAppend(start[target], acc, step, start);
  }

  /** One more node of the layer flattened: it and all its ancestors were still as they started. */
  lemma FlattenNext(start: seq<seq<EventData>>, before: seq<seq<EventData>>, ps: seq<seq<nat>>, cs: seq<seq<nat>>, layer: seq<nat>, j: nat)
    requires ParentsBelow(ps) && Mirrored(ps, cs) && ChildrenFirst(cs, layer) && j < |layer|
    requires |start| == |before| == |ps| && forall i :: 0 <= i < |start| ==> |start[i]| == Kinds && |before[i]| == Kinds
    requires forall x :: 0 <= x < |before| ==> before[x] == if x in layer[..j] then Flattened(start, ps, x) else start[x]
    ensures var x := layer[j];
      before[x := ExtendAll(before[x], Order(ps, x), before)] ==
      before[x := Flattened(start, ps, x)]
  {
    var x := layer[j];
    assert x !in layer[..j];
    OrderIsAncestors(ps, x);
    var order := Order(ps, x);
    forall k | 0 <= k < |order|
      ensures before[order[k]] == start[order[k]]
    {
      assert order[k] in Elems(order);
      AncestorsLater(ps, cs, layer, j, order[k]);
    }
    ExtendAllAgree(start[x], order, before, start);
  }
}
