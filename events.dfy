/**
 * One event of a profile: ordered lists of C++ and Lua callbacks, and for
 * events keyed by an id (the world-packet event, keyed by opcode) a table of
 * such lists indexed by that id. Callbacks are opaque identifiers; what a
 * callback does is outside the model, except whether it raises an exception.
 */
module Events {
  type CallbackId = nat

  /** The four lists of one event: unkeyed C++, unkeyed Lua, and the keyed tables of each. */
  datatype EventData = EventData(cxx: seq<CallbackId>, lua: seq<CallbackId>, idCxx: seq<seq<CallbackId>>, idLua: seq<seq<CallbackId>>)

  const Empty: EventData := EventData([], [], [], [])

  /** Slot i of a keyed table; a slot past the end is empty. */
  function Slot(t: seq<seq<CallbackId>>, i: nat): seq<CallbackId>
  {
    if i < |t| then t[i] else []
  }

  function Max(a: nat, b: nat): nat
  {
    if a < b then b else a
  }

  predicate HasNonIdEntries(e: EventData)
  {
    |e.cxx| > 0 || |e.lua| > 0
  }

  // ---------------------------------------------------------------------
  // Extension: appending another event's callbacks.

  /** Table a grown to b's length where shorter, with each of b's slots appended to a's. */
  function Merged(a: seq<seq<CallbackId>>, b: seq<seq<CallbackId>>): (r: seq<seq<CallbackId>>)
    ensures |r| == Max(|a|, |b|)
    ensures forall i :: 0 <= i < |r| ==> r[i] == Slot(a, i) + Slot(b, i)
  {
    seq(Max(|a|, |b|), i requires 0 <= i < Max(|a|, |b|) => Slot(a, i) + Slot(b, i))
  }

  function Extended(e: EventData, o: EventData): (r: EventData)
  {
    EventData(e.cxx + o.cxx, e.lua + o.lua, Merged(e.idCxx, o.idCxx), Merged(e.idLua, o.idLua))
  }

  /** Whatever is read from any slot of a merged table is the two slots concatenated, in and past the range alike. */
  lemma MergedSlot(a: seq<seq<CallbackId>>, b: seq<seq<CallbackId>>, i: nat)
    ensures Slot(Merged(a, b), i) == Slot(a, i) + Slot(b, i)
  {
  }

  /** Two tables with the same length and the same slots are the same table. */
  lemma SlotsEqual(a: seq<seq<CallbackId>>, b: seq<seq<CallbackId>>)
    requires |a| == |b| && forall i: nat :: Slot(a, i) == Slot(b, i)
    ensures a == b
  {
    forall i | 0 <= i < |a|
      ensures a[i] == b[i]
    {
      assert Slot(a, i) == Slot(b, i);
    }
  }

  /**
   * Extension keeps what was there: every existing list and slot is a prefix
   * of the new one, no table shrinks, and the new entries come after.
   */
  lemma ExtendKeepsExisting(e: EventData, o: EventData)
    ensures var r := Extended(e, o);
      r.cxx[..|e.cxx|] == e.cxx && r.cxx[|e.cxx|..] == o.cxx &&
      r.lua[..|e.lua|] == e.lua && r.lua[|e.lua|..] == o.lua &&
      |r.idCxx| >= |e.idCxx| && |r.idCxx| >= |o.idCxx| && |r.idLua| >= |e.idLua| && |r.idLua| >= |o.idLua| &&
      (forall i: nat :: Slot(r.idCxx, i) == Slot(e.idCxx, i) + Slot(o.idCxx, i)) &&
      (forall i: nat :: Slot(r.idLua, i) == Slot(e.idLua, i) + Slot(o.idLua, i))
  {
    var r := Extended(e, o);
    forall i: nat
      ensures Slot(r.idCxx, i) == Slot(e.idCxx, i) + Slot(o.idCxx, i)
      ensures Slot(r.idLua, i) == Slot(e.idLua, i) + Slot(o.idLua, i)
    {
      MergedSlot(e.idCxx, o.idCxx, i);
      MergedSlot(e.idLua, o.idLua, i);
    }
  }

  /** Extending with an empty event changes nothing, and extending an empty event copies the other. */
  lemma ExtendEmpty(e: EventData)
    ensures Extended(e, Empty) == e
    ensures Extended(Empty, e) == e
  {
    forall i: nat
      ensures Slot(Merged(e.idCxx, []), i) == Slot(e.idCxx, i) && Slot(Merged([], e.idCxx), i) == Slot(e.idCxx, i)
      ensures Slot(Merged(e.idLua, []), i) == Slot(e.idLua, i) && Slot(Merged([], e.idLua), i) == Slot(e.idLua, i)
    {
      MergedSlot(e.idCxx, [], i);
      MergedSlot([], e.idCxx, i);
      MergedSlot(e.idLua, [], i);
      MergedSlot([], e.idLua, i);
    }
    SlotsEqual(Merged(e.idCxx, []), e.idCxx);
    SlotsEqual(Merged([], e.idCxx), e.idCxx);
    SlotsEqual(Merged(e.idLua, []), e.idLua);
    SlotsEqual(Merged([], e.idLua), e.idLua);
  }

  lemma MergedAssoc(a: seq<seq<CallbackId>>, b: seq<seq<CallbackId>>, c: seq<seq<CallbackId>>)
    ensures Merged(Merged(a, b), c) == Merged(a, Merged(b, c))
  {
    var l, r := Merged(Merged(a, b), c), Merged(a, Merged(b, c));
    forall i: nat
      ensures Slot(l, i) == Slot(r, i)
    {
      MergedAssocSlot(a, b, c, i);
    }
    SlotsEqual(l, r);
  }

  lemma MergedAssocSlot(a: seq<seq<CallbackId>>, b: seq<seq<CallbackId>>, c: seq<seq<CallbackId>>, i: nat)
    ensures Slot(Merged(Merged(a, b), c), i) == Slot(Merged(a, Merged(b, c)), i)
  {
    MergedSlot(Merged(a, b), c, i);
    MergedSlot(a, b, i);
    MergedSlot(a, Merged(b, c), i);
    MergedSlot(b, c, i);
    assert Slot(a, i) + Slot(b, i) + Slot(c, i) == Slot(a, i) + (Slot(b, i) + Slot(c, i));
  }

  /** Extending with b then c is extending with b already extended with c. */
  lemma ExtendAssoc(a: EventData, b: EventData, c: EventData)
    ensures Extended(Extended(a, b), c) == Extended(a, Extended(b, c))
  {
    MergedAssoc(a.idCxx, b.idCxx, c.idCxx);
    MergedAssoc(a.idLua, b.idLua, c.idLua);
  }

  /** An extended event has unkeyed entries exactly when one of the two had. */
  lemma ExtendEntries(e: EventData, o: EventData)
    ensures HasNonIdEntries(Extended(e, o)) <==> HasNonIdEntries(e) || HasNonIdEntries(o)
  {
  }

  // ---------------------------------------------------------------------
  // Clearing: every list emptied, the keyed tables keep their lengths.

  function Cleared(e: EventData): (r: EventData)
  {
    EventData([], [], seq(|e.idCxx|, _ => []), seq(|e.idLua|, _ => []))
  }

  lemma ClearedIsEmpty(e: EventData)
    ensures !HasNonIdEntries(Cleared(e))
    ensures |Cleared(e).idCxx| == |e.idCxx| && |Cleared(e).idLua| == |e.idLua|
    ensures forall i: nat :: Slot(Cleared(e).idCxx, i) == [] && Slot(Cleared(e).idLua, i) == []
    ensures Cleared(Cleared(e)) == Cleared(e)
  {
  }

  // ---------------------------------------------------------------------
  // Keyed registration.

  /** The table grown to reg + 1 slots when too short, with cb appended to slot reg. */
  function AddKeyed(t: seq<seq<CallbackId>>, reg: nat, cb: CallbackId): (r: seq<seq<CallbackId>>)
  {
    var grown := if reg >= |t| then t + seq(reg + 1 - |t|, _ => []) else t;
    grown[reg := grown[reg] + [cb]]
  }

  /** Registration touches slot reg only, and grows the table just enough to have it. */
  lemma AddKeyedSlots(t: seq<seq<CallbackId>>, reg: nat, cb: CallbackId)
    ensures |AddKeyed(t, reg, cb)| == Max(|t|, reg + 1)
    ensures Slot(AddKeyed(t, reg, cb), reg) == Slot(t, reg) + [cb]
    ensures forall i: nat :: i != reg ==> Slot(AddKeyed(t, reg, cb), i) == Slot(t, i)
  {
  }

  /** Registration under each id of a list, in list order. */
  function AddKeyedAll(t: seq<seq<CallbackId>>, ids: seq<nat>, cb: CallbackId): (r: seq<seq<CallbackId>>)
    decreases |ids|
  {
    if ids == [] then t else AddKeyedAll(AddKeyed(t, ids[0], cb), ids[1..], cb)
  }

  function Count(ids: seq<nat>, x: nat): nat
  {
    multiset(ids)[x]
  }

  /** Registering under a list of ids puts cb into each listed slot once per occurrence of the id. */
  lemma {:induction false} AddKeyedAllSlots(t: seq<seq<CallbackId>>, ids: seq<nat>, cb: CallbackId, i: nat)
    ensures |Slot(AddKeyedAll(t, ids, cb), i)| == |Slot(t, i)| + Count(ids, i)
    ensures Slot(AddKeyedAll(t, ids, cb), i)[..|Slot(t, i)|] == Slot(t, i)
    ensures forall k :: |Slot(t, i)| <= k < |Slot(AddKeyedAll(t, ids, cb), i)| ==> Slot(AddKeyedAll(t, ids, cb), i)[k] == cb
    decreases |ids|
  {
    if ids != [] {
      var t1 := AddKeyed(t, ids[0], cb);
      AddKeyedSlots(t, ids[0], cb);
      AddKeyedAllSlots(t1, ids[1..], cb, i);
      assert ids == [ids[0]] + ids[1..];
      assert multiset(ids) == multiset([ids[0]]) + multiset(ids[1..]);
    }
  }

  /** What a Lua script passes as the id argument: a number, a table of numbers, or anything else. */
  datatype LuaObject = Number(n: nat) | Table(entries: seq<nat>) | Other

  /** The ids a Lua object names: itself, its entries in order, or none. */
  function LuaIds(obj: LuaObject): (ids: seq<nat>)
  {
    match obj
    case Number(n) => [n]
    case Table(entries) => entries
    case Other => []
  }

  // ---------------------------------------------------------------------
  // The event as the mutable storage the registration macros and the
  // profile graph update in place.

  class Event {
    var cxx: seq<CallbackId>
    var lua: seq<CallbackId>
    var idCxx: seq<seq<CallbackId>>
    var idLua: seq<seq<CallbackId>>

    constructor ()
      ensures Contents() == Empty
    {
      cxx, lua, idCxx, idLua := [], [], [], [];
    }

    function Contents(): EventData
      reads this
    {
      EventData(cxx, lua, idCxx, idLua)
    }

    /** Appends the other event's callbacks one by one, grows the tables, then appends slot by slot. */
    method Extend(other: EventData)
      modifies this
      ensures Contents() == Extended(old(Contents()), other)
    {
      for i := 0 to |other.cxx|
        invariant cxx == old(cxx) + other.cxx[..i]
        invariant lua == old(lua) && idCxx == old(idCxx) && idLua == old(idLua)
      {
        cxx := cxx + [other.cxx[i]];
        assert other.cxx[..i + 1] == other.cxx[..i] + [other.cxx[i]];
      }
      assert other.cxx[..|other.cxx|] == other.cxx;
      for i := 0 to |other.lua|
        invariant lua == old(lua) + other.lua[..i]
        invariant cxx == old(cxx) + other.cxx && idCxx == old(idCxx) && idLua == old(idLua)
      {
        lua := lua + [other.lua[i]];
        assert other.lua[..i + 1] == other.lua[..i] + [other.lua[i]];
      }
      assert other.lua[..|other.lua|] == other.lua;
      idCxx := ExtendTable(idCxx, other.idCxx);
      idLua := ExtendTable(idLua, other.idLua);
    }

    /** Empties every list and every slot, keeping the tables' lengths. */
    method Clear()
      modifies this
      ensures Contents() == Cleared(old(Contents()))
    {
      cxx := [];
      lua := [];
      idCxx := ClearTable(idCxx);
      idLua := ClearTable(idLua);
    }

    /** `name(cb)`: a C++ callback for the unkeyed list. */
    method Add(cb: CallbackId)
      modifies this
      ensures Contents() == old(Contents()).(cxx := old(cxx) + [cb])
    {
      cxx := cxx + [cb];
    }

    /** `Lname(cb)`: a Lua callback for the unkeyed list. */
    method AddLua(cb: CallbackId)
      modifies this
      ensures Contents() == old(Contents()).(lua := old(lua) + [cb])
    {
      lua := lua + [cb];
    }

    /** `name(reg_id, cb)`: a C++ callback keyed by reg. */
    method AddCxxKeyed(reg: nat, cb: CallbackId)
      modifies this
      ensures Contents() == old(Contents()).(idCxx := AddKeyed(old(idCxx), reg, cb))
    {
      if reg >= |idCxx| {
        idCxx := idCxx + seq(reg + 1 - |idCxx|, _ => []);
      }
      idCxx := idCxx[reg := idCxx[reg] + [cb]];
    }

    /** `name(ids, cb)`: the same C++ callback keyed by each id in turn. */
    method AddCxxKeyedAll(ids: seq<nat>, cb: CallbackId)
      modifies this
      ensures Contents() == old(Contents()).(idCxx := AddKeyedAll(old(idCxx), ids, cb))
    {
      for i := 0 to |ids|
        invariant Contents() == old(Contents()).(idCxx := idCxx)
        invariant AddKeyedAll(idCxx, ids[i..], cb) == AddKeyedAll(old(idCxx), ids, cb)
      {
        AddCxxKeyed(ids[i], cb);
        assert ids[i..][1..] == ids[i + 1..];
      }
    }

    /** `_Lname(reg_id, cb)`: a Lua callback keyed by reg. */
    method AddLuaKeyed(reg: nat, cb: CallbackId)
      modifies this
      ensures Contents() == old(Contents()).(idLua := AddKeyed(old(idLua), reg, cb))
    {
      if reg >= |idLua| {
        idLua := idLua + seq(reg + 1 - |idLua|, _ => []);
      }
      idLua := idLua[reg := idLua[reg] + [cb]];
    }

    /** `Lidname(obj, cb)`: a number is one id, a table is a list of ids, anything else is ignored. */
    method AddLuaObject(obj: LuaObject, cb: CallbackId)
      modifies this
      ensures Contents() == old(Contents()).(idLua := AddKeyedAll(old(idLua), LuaIds(obj), cb))
    {
      match obj
      case Number(n) =>
        AddLuaKeyed(n, cb);
      case Table(entries) =>
        for i := 0 to |entries|
          invariant Contents() == old(Contents()).(idLua := idLua)
          invariant AddKeyedAll(idLua, entries[i..], cb) == AddKeyedAll(old(idLua), entries, cb)
        {
          AddLuaKeyed(entries[i], cb);
          assert entries[i..][1..] == entries[i + 1..];
        }
      case Other =>
    }
  }

  /** The keyed half of `extend`: resize where shorter, then append slot by slot. */
  method ExtendTable(t: seq<seq<CallbackId>>, o: seq<seq<CallbackId>>) returns (r: seq<seq<CallbackId>>)
    ensures r == Merged(t, o)
  {
    r := t;
    if |r| < |o| {
      r := r + seq(|o| - |r|, _ => []);
    }
    for i := 0 to |o|
      invariant |r| == Max(|t|, |o|)
      invariant forall j :: 0 <= j < i ==> r[j] == Slot(t, j) + o[j]
      invariant forall j :: i <= j < |r| ==> r[j] == Slot(t, j)
    {
      r := AppendToSlot(r, i, o[i]);
    }
    SlotsEqual(r, Merged(t, o));
  }

  /** Appends the callbacks one by one to slot i. */
  method AppendToSlot(t: seq<seq<CallbackId>>, i: nat, cbs: seq<CallbackId>) returns (r: seq<seq<CallbackId>>)
    requires i < |t|
    ensures r == t[i := t[i] + cbs]
  {
    r := t;
    assert t[i] + cbs[..0] == t[i];
    for k := 0 to |cbs|
      invariant |r| == |t| && r[i] == t[i] + cbs[..k]
      invariant forall j :: 0 <= j < |t| && j != i ==> r[j] == t[j]
    {
      assert cbs[..k + 1] == cbs[..k] + [cbs[k]];
      r := r[i := r[i] + [cbs[k]]];
    }
    assert cbs[..|cbs|] == cbs;
  }

  /** Clears every slot of a table in place. */
  method ClearTable(t: seq<seq<CallbackId>>) returns (r: seq<seq<CallbackId>>)
    ensures r == seq(|t|, _ => [])
  {
    r := t;
    for i := 0 to |t|
      invariant |r| == |t|
      invariant forall j :: 0 <= j < i ==> r[j] == []
    {
      r := r[i := []];
    }
  }

  // ---------------------------------------------------------------------
  // Firing. `throws` says which callbacks raise an exception when invoked.

  datatype Callback = Cxx(id: CallbackId) | Lua(id: CallbackId)

  /** What firing does: the setup code, a callback invocation, or the error log after a Lua callback raised. */
  datatype Step = Setup | Run(cb: Callback) | Logged(cb: Callback)

  /** The steps performed, and whether an exception left the firing code. */
  datatype Outcome = Outcome(trace: seq<Step>, escaped: bool)

  /** C++ callbacks in order, each after the setup code; the first that raises ends the firing. */
  function FireCxx(cbs: seq<CallbackId>, throws: Callback -> bool): (o: Outcome)
  {
    if cbs == [] then Outcome([], false)
    else if throws(Cxx(cbs[0])) then Outcome([Setup, Run(Cxx(cbs[0]))], true)
    else
      var rest := FireCxx(cbs[1..], throws);
      Outcome([Setup, Run(Cxx(cbs[0]))] + rest.trace, rest.escaped)
  }

  /** One Lua callback: the setup code, the call, and the error log when it raised. */
  function LuaStep(cb: CallbackId, throws: Callback -> bool): seq<Step>
  {
    if throws(Lua(cb)) then [Setup, Run(Lua(cb)), Logged(Lua(cb))] else [Setup, Run(Lua(cb))]
  }

  /** Lua callbacks in order; one that raises is logged and the next one runs. */
  function FireLua(cbs: seq<CallbackId>, throws: Callback -> bool): (trace: seq<Step>)
  {
    if cbs == [] then [] else LuaStep(cbs[0], throws) + FireLua(cbs[1..], throws)
  }

  /** `FIRE`: the C++ callbacks, then the Lua ones. */
  function Fire(e: EventData, throws: Callback -> bool): (o: Outcome)
  {
    var c := FireCxx(e.cxx, throws);
    if c.escaped then c else Outcome(c.trace + FireLua(e.lua, throws), false)
  }

  /** `FIRE_ID`: the unkeyed callbacks, then the C++ and Lua callbacks of slot ref where the tables reach it. */
  function FireId(e: EventData, ref: nat, throws: Callback -> bool): (o: Outcome)
  {
    var u := Fire(e, throws);
    if u.escaped then u
    else
      var k := if ref < |e.idCxx| then FireCxx(e.idCxx[ref], throws) else Outcome([], false);
      if k.escaped then Outcome(u.trace + k.trace, true)
      else
        var l := if ref < |e.idLua| then FireLua(e.idLua[ref], throws) else [];
        Outcome(u.trace + k.trace + l, false)
  }

  /** The callbacks a trace invokes, in order. */
  function Runs(trace: seq<Step>): (r: seq<Callback>)
  {
    if trace == [] then []
    else (if trace[0].Run? then [trace[0].cb] else []) + Runs(trace[1..])
  }

  function AsCxx(ids: seq<CallbackId>): (r: seq<Callback>)
    ensures |r| == |ids| && forall i :: 0 <= i < |ids| ==> r[i] == Cxx(ids[i])
  {
    seq(|ids|, i requires 0 <= i < |ids| => Cxx(ids[i]))
  }

  function AsLua(ids: seq<CallbackId>): (r: seq<Callback>)
    ensures |r| == |ids| && forall i :: 0 <= i < |ids| ==> r[i] == Lua(ids[i])
  {
    seq(|ids|, i requires 0 <= i < |ids| => Lua(ids[i]))
  }

  lemma {:induction false} RunsAppend(a: seq<Step>, b: seq<Step>)
    ensures Runs(a + b) == Runs(a) + Runs(b)
    decreases |a|
  {
    if a == [] {
      assert a + b == b;
    } else {
      assert (a + b)[0] == a[0];
      assert (a + b)[1..] == a[1..] + b;
      RunsAppend(a[1..], b);
    }
  }

  /** The setup code invokes nothing; a callback step invokes exactly its callback. */
  lemma StepRuns(c: Callback, throws: Callback -> bool)
    ensures Runs([Setup, Run(c)]) == [c]
    ensures c.Lua? ==> Runs(LuaStep(c.id, throws)) == [c]
  {
    assert [Setup, Run(c)][1..] == [Run(c)];
    assert [Run(c)][1..] == [];
    assert Runs([Run(c)]) == [c] + Runs([]);
    assert Runs([Setup, Run(c)]) == [] + Runs([Run(c)]);
    if c.Lua? {
      var l := [Setup, Run(c), Logged(c)];
      assert l[1..] == [Run(c), Logged(c)];
      assert [Run(c), Logged(c)][1..] == [Logged(c)];
      assert [Logged(c)][1..] == [];
      assert Runs([Logged(c)]) == [] + Runs([]);
      assert Runs([Run(c), Logged(c)]) == [c] + Runs([Logged(c)]);
      assert Runs(l) == [] + Runs([Run(c), Logged(c)]);
    }
  }

  /** When no C++ callback raises, every one runs, in order, and nothing escapes. */
  lemma {:induction false} FireCxxAll(cbs: seq<CallbackId>, throws: Callback -> bool)
    requires forall i :: 0 <= i < |cbs| ==> !throws(Cxx(cbs[i]))
    ensures !FireCxx(cbs, throws).escaped && Runs(FireCxx(cbs, throws).trace) == AsCxx(cbs)
    decreases |cbs|
  {
    if cbs != [] {
      FireCxxAll(cbs[1..], throws);
      var rest := FireCxx(cbs[1..], throws);
      RunsAppend([Setup, Run(Cxx(cbs[0]))], rest.trace);
      StepRuns(Cxx(cbs[0]), throws);
      assert AsCxx(cbs) == [Cxx(cbs[0])] + AsCxx(cbs[1..]);
    }
  }

  /** The first C++ callback that raises is the last one to run: the ones after it are skipped. */
  lemma {:induction false} FireCxxStops(cbs: seq<CallbackId>, k: nat, throws: Callback -> bool)
    requires k < |cbs| && throws(Cxx(cbs[k])) && forall i :: 0 <= i < k ==> !throws(Cxx(cbs[i]))
    ensures FireCxx(cbs, throws).escaped && Runs(FireCxx(cbs, throws).trace) == AsCxx(cbs[..k + 1])
    decreases |cbs|
  {
    StepRuns(Cxx(cbs[0]), throws);
    if k > 0 {
      var rest := FireCxx(cbs[1..], throws);
      FireCxxStops(cbs[1..], k - 1, throws);
      RunsAppend([Setup, Run(Cxx(cbs[0]))], rest.trace);
      AsCxxPrefix(cbs, k);
    } else {
      assert AsCxx(cbs[..1]) == [Cxx(cbs[0])];
    }
  }

  lemma AsCxxPrefix(cbs: seq<CallbackId>, k: nat)
    requires 0 < k < |cbs|
    ensures AsCxx(cbs[..k + 1]) == [Cxx(cbs[0])] + AsCxx(cbs[1..][..k])
  {
    assert cbs[1..][..k] == cbs[1..k + 1];
  }

  /** Every Lua callback runs, in order, whether or not any of them raises. */
  lemma {:induction false} FireLuaAll(cbs: seq<CallbackId>, throws: Callback -> bool)
    ensures Runs(FireLua(cbs, throws)) == AsLua(cbs)
    decreases |cbs|
  {
    if cbs != [] {
      var here, rest := LuaStep(cbs[0], throws), FireLua(cbs[1..], throws);
      FireLuaAll(cbs[1..], throws);
      RunsAppend(here, rest);
      LuaStepRuns(cbs[0], throws);
      AsLuaCons(cbs);
    }
  }

  lemma LuaStepRuns(cb: CallbackId, throws: Callback -> bool)
    ensures Runs(LuaStep(cb, throws)) == [Lua(cb)]
  {
    StepRuns(Lua(cb), throws);
  }

  lemma AsLuaCons(cbs: seq<CallbackId>)
    requires cbs != []
    ensures AsLua(cbs) == [Lua(cbs[0])] + AsLua(cbs[1..])
  {
  }

  /** Firing a list of Lua callbacks is firing its two halves one after the other. */
  lemma {:induction false} FireLuaAppend(a: seq<CallbackId>, b: seq<CallbackId>, throws: Callback -> bool)
    ensures FireLua(a + b, throws) == FireLua(a, throws) + FireLua(b, throws)
    decreases |a|
  {
    if a == [] {
      assert a + b == b;
    } else {
      assert (a + b)[0] == a[0] && (a + b)[1..] == a[1..] + b;
      FireLuaAppend(a[1..], b, throws);
    }
  }

  /** A firing in which no C++ callback raises runs all C++ callbacks and then all Lua callbacks. */
  lemma FireOrder(e: EventData, throws: Callback -> bool)
    requires forall i :: 0 <= i < |e.cxx| ==> !throws(Cxx(e.cxx[i]))
    ensures !Fire(e, throws).escaped
    ensures Runs(Fire(e, throws).trace) == AsCxx(e.cxx) + AsLua(e.lua)
  {
    FireCxxAll(e.cxx, throws);
    FireLuaAll(e.lua, throws);
    RunsAppend(FireCxx(e.cxx, throws).trace, FireLua(e.lua, throws));
  }

  /** A raising C++ callback skips the remaining C++ callbacks and every Lua callback, and the exception escapes. */
  lemma FireCxxEscapes(e: EventData, k: nat, throws: Callback -> bool)
    requires k < |e.cxx| && throws(Cxx(e.cxx[k])) && forall i :: 0 <= i < k ==> !throws(Cxx(e.cxx[i]))
    ensures Fire(e, throws).escaped
    ensures Runs(Fire(e, throws).trace) == AsCxx(e.cxx[..k + 1])
  {
    FireCxxStops(e.cxx, k, throws);
  }

  /** A keyed firing runs the unkeyed callbacks, then those of slot ref: C++ first, then Lua. */
  lemma FireIdOrder(e: EventData, ref: nat, throws: Callback -> bool)
    requires forall i :: 0 <= i < |e.cxx| ==> !throws(Cxx(e.cxx[i]))
    requires forall i :: 0 <= i < |Slot(e.idCxx, ref)| ==> !throws(Cxx(Slot(e.idCxx, ref)[i]))
    ensures !FireId(e, ref, throws).escaped
    ensures Runs(FireId(e, ref, throws).trace) ==
      AsCxx(e.cxx) + AsLua(e.lua) + AsCxx(Slot(e.idCxx, ref)) + AsLua(Slot(e.idLua, ref))
  {
    FireOrder(e, throws);
    FireCxxAll(Slot(e.idCxx, ref), throws);
    FireLuaAll(Slot(e.idLua, ref), throws);
    var u := Fire(e, throws).trace;
    var k := FireCxx(Slot(e.idCxx, ref), throws).trace;
    var l := FireLua(Slot(e.idLua, ref), throws);
    assert ref >= |e.idCxx| ==> k == [];
    assert ref >= |e.idLua| ==> l == [];
    RunsAppend(u, k);
    RunsAppend(u + k, l);
  }

  /** The C++ loop of `FIRE`: the setup code before each callback; an exception leaves the loop and the macro. */
  method FireCxxLoop(cbs: seq<CallbackId>, throws: Callback -> bool) returns (o: Outcome)
    ensures o == FireCxx(cbs, throws)
  {
    var trace: seq<Step> := [];
    for i := 0 to |cbs|
      invariant FireCxx(cbs, throws) == var r := FireCxx(cbs[i..], throws); Outcome(trace + r.trace, r.escaped)
    {
      assert cbs[i..][1..] == cbs[i + 1..];
      trace := trace + [Setup, Run(Cxx(cbs[i]))];
      if throws(Cxx(cbs[i])) {
        return Outcome(trace, true);
      }
    }
    assert cbs[|cbs|..] == [];
    o := Outcome(trace, false);
  }

  /** The Lua loop of `FIRE`: the setup code before each callback; an exception is caught and logged. */
  method FireLuaLoop(cbs: seq<CallbackId>, throws: Callback -> bool) returns (trace: seq<Step>)
    ensures trace == FireLua(cbs, throws)
  {
    trace := [];
    for i := 0 to |cbs|
      invariant trace == FireLua(cbs[..i], throws)
    {
      var step := [Setup, Run(Lua(cbs[i]))];
      if throws(Lua(cbs[i])) {
        step := step + [Logged(Lua(cbs[i]))];
      }
      LuaSnoc(cbs, i, throws);
      trace := trace + step;
    }
    assert cbs[..|cbs|] == cbs;
  }

  lemma LuaSnoc(cbs: seq<CallbackId>, i: nat, throws: Callback -> bool)
    requires i < |cbs|
    ensures FireLua(cbs[..i + 1], throws) == FireLua(cbs[..i], throws) + LuaStep(cbs[i], throws)
  {
    assert cbs[..i + 1] == cbs[..i] + [cbs[i]];
    FireLuaAppend(cbs[..i], [cbs[i]], throws);
    assert FireLua([cbs[i]], throws) == LuaStep(cbs[i], throws) + FireLua([], throws);
  }

  /** `FIRE`: the C++ loop, then, unless an exception left it, the Lua loop. */
  method FireLoop(e: EventData, throws: Callback -> bool) returns (o: Outcome)
    ensures o == Fire(e, throws)
  {
    o := FireCxxLoop(e.cxx, throws);
    if !o.escaped {
      var lua := FireLuaLoop(e.lua, throws);
      o := Outcome(o.trace + lua, false);
    }
  }

  /** `FIRE_ID`: `FIRE`, then the loops over slot ref of each keyed table that reaches it. */
  method FireIdLoop(e: EventData, ref: nat, throws: Callback -> bool) returns (o: Outcome)
    ensures o == FireId(e, ref, throws)
  {
    o := FireLoop(e, throws);
    if o.escaped {
      return;
    }
    if ref < |e.idCxx| {
      var k := FireCxxLoop(e.idCxx[ref], throws);
      o := Outcome(o.trace + k.trace, k.escaped);
      if k.escaped {
        return;
      }
    }
    if ref < |e.idLua| {
      var l := FireLuaLoop(e.idLua[ref], throws);
      o := Outcome(o.trace + l, false);
    }
  }
}
