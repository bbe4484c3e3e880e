/**
 * `BotMutable<T>`: a handle on a variable owned by the code that fires an
 * event. Handlers receive the handle by value, so every copy writes through
 * to the same variable; this is how a handler cancels a step of the
 * handshake or picks a realm.
 */
module Mutable {
  /** The variable a handle points at. */
  class Cell<T> {
    var value: T

    constructor (v: T)
      ensures value == v
    {
      value := v;
    }
  }

  class Mutable<T> {
    const target: Cell<T>

    /** `BotMutable(T* value)`: the handle keeps the pointer, nothing else. */
    constructor (target: Cell<T>)
      ensures this.target == target
    {
      this.target := target;
    }

    /** `set`: writes through the pointer; the handle itself does not change. */
    method Set(v: T)
      modifies target
      ensures target.value == v
    {
      target.value := v;
    }

    /** `get`: reads through the pointer and changes nothing. */
    method Get() returns (v: T)
      ensures v == target.value
    {
      v := target.value;
    }

    /** Passing a handle by value copies the pointer, not the variable. */
    method Copy() returns (c: Mutable<T>)
      ensures fresh(c) && c.target == target
    {
      c := new Mutable(target);
    }
  }

  /** A value set through a handle is what a following `get` returns. */
  method SetThenGet<T>(m: Mutable<T>, v: T) returns (r: T)
    modifies m.target
    ensures r == v
  {
    m.Set(v);
    r := m.Get();
  }

  /**
   * A handler's copy aliases the caller's variable: what the handler sets is
   * visible to the caller afterwards, and of two writers the later one wins.
   */
  method CopiesAlias<T>(owner: Cell<T>, first: T, second: T) returns (seen: T)
    modifies owner
    ensures seen == second && owner.value == second
  {
    var handle := new Mutable(owner);
    var a := handle.Copy();
    var b := handle.Copy();
    a.Set(first);
    b.Set(second);
    seen := handle.Get();
  }
}
