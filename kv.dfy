/**
 * The key-value store that the command interpreter calls through kv.h, and
 * the mutex `mutex_kvs` that guards it.  The store's own representation
 * (hashing, capacity) is not part of this model: the store is an abstract
 * map from keys to values, and whether `createItem` or `deleteItem` accepts
 * a request is the store's private decision, given by a `StorePolicy`.
 *
 * The mutex is a ghost flag `locked` plus a ghost trace of lock events and
 * store calls.  Every store operation requires the flag, so the verifier
 * checks that no store call is made without the lock.
 */
module Kv {
  import opened Wrappers

  /** The five calls of the store interface, with their arguments. */
  datatype StoreCall =
    | CountItems
    | ItemExists(key: string)
    | FindValue(key: string)
    | CreateItem(key: string, value: string)
    | DeleteItem(key: string)

  /** What happens to the store and its mutex, in order. */
  datatype KvEvent = Acquire | Release | Call(call: StoreCall)

  /**
   * The store's private verdicts: the status `createItem` and `deleteItem`
   * return for a given store content and arguments (0 means success).
   */
  datatype StorePolicy = StorePolicy(
    create: (map<string, string>, string, string) -> int,
    delete: (map<string, string>, string) -> int)

  /** The result of `itemExists`. */
  function ExistsFlag(items: map<string, string>, key: string): int {
    if key in items then 1 else 0
  }

  /** The result of `findValue`: the stored value, or NULL. */
  function Find(items: map<string, string>, key: string): Option<string> {
    if key in items then Some(items[key]) else None
  }

  /** The content after `createItem` returned `status`. */
  function AfterCreate(items: map<string, string>, key: string, value: string, status: int): map<string, string> {
    if status == 0 then items[key := value] else items
  }

  /** The content after `deleteItem` returned `status`. */
  function AfterDelete(items: map<string, string>, key: string, status: int): map<string, string> {
    if status == 0 then items - {key} else items
  }

  /** The mutex state after one more event, from `held`; None when the event breaks the discipline. */
  function NextLockState(held: bool, e: KvEvent): Option<bool> {
    match e
    case Acquire => if held then None else Some(true)
    case Release => if held then Some(false) else None
    case Call(_) => if held then Some(true) else None
  }

  /**
   * Replays a trace from a free mutex: Some(held) when the mutex is never
   * taken twice, never released while free, and every store call happens
   * while it is held; None otherwise.
   */
  function LockState(t: seq<KvEvent>): Option<bool>
    decreases |t|
  {
    if t == [] then Some(false)
    else match LockState(t[..|t| - 1])
      case None => None
      case Some(held) => NextLockState(held, t[|t| - 1])
  }

  /** The events of one guarded store call: lock, call, unlock; nothing when no call is made. */
  function Bracket(c: Option<StoreCall>): seq<KvEvent> {
    match c
    case None => []
    case Some(call) => [Acquire, Call(call), Release]
  }

  lemma LockStateAppend(t: seq<KvEvent>, e: KvEvent)
    ensures LockState(t + [e]) == (match LockState(t) case None => None case Some(held) => NextLockState(held, e))
  {
    assert (t + [e])[..|t|] == t;
  }

  /** Lock, call, unlock appended one by one is the bracket of that call. */
  lemma BracketShape(t: seq<KvEvent>, call: StoreCall)
    ensures t + [Acquire] + [Call(call)] + [Release] == t + Bracket(Some(call))
  {
  }

  /** A guarded call leaves a free mutex free and keeps the discipline. */
  lemma BracketKeepsLockFree(t: seq<KvEvent>, c: Option<StoreCall>)
    requires LockState(t) == Some(false)
    ensures LockState(t + Bracket(c)) == Some(false)
  {
    if c.Some? {
      var t1 := t + [Acquire];
      var t2 := t1 + [Call(c.value)];
      LockStateAppend(t, Acquire);
      LockStateAppend(t1, Call(c.value));
      LockStateAppend(t2, Release);
      assert t + Bracket(c) == t2 + [Release];
    } else {
      assert t + Bracket(c) == t;
    }
  }

  /** In a disciplined trace, every store call is made while the mutex is held. */
  lemma {:induction false} CallsHappenUnderLock(t: seq<KvEvent>, i: nat)
    requires LockState(t).Some?
    requires i < |t| && t[i].Call?
    ensures LockState(t[..i]) == Some(true)
    decreases |t|
  {
    var front := t[..|t| - 1];
    assert LockState(front).Some?;
    if i < |t| - 1 {
      assert front[..i] == t[..i];
      CallsHappenUnderLock(front, i);
    } else {
      assert front == t[..i];
    }
  }

  /** The store and its mutex, both global in the C code. */
  class Store {
    var items: map<string, string>
    const policy: StorePolicy
    ghost var locked: bool
    ghost var trace: seq<KvEvent>

    /** The mutex flag agrees with a disciplined history of lock events and calls. */
    ghost predicate Valid()
      reads this
    {
      LockState(trace) == Some(locked)
    }

    constructor (policy: StorePolicy)
      ensures Valid() && !locked && trace == []
      ensures items == map[] && this.policy == policy
    {
      items := map[];
      this.policy := policy;
      locked := false;
      trace := [];
    }

    /** pthread_mutex_lock(&mutex_kvs) */
    method Lock()
      requires Valid() && !locked
      modifies this
      ensures Valid() && locked
      ensures items == old(items) && trace == old(trace) + [Acquire]
    {
      LockStateAppend(trace, Acquire);
      locked := true;
      trace := trace + [Acquire];
    }

    /** pthread_mutex_unlock(&mutex_kvs) */
    method Unlock()
      requires Valid() && locked
      modifies this
      ensures Valid() && !locked
      ensures items == old(items) && trace == old(trace) + [Release]
    {
      LockStateAppend(trace, Release);
      locked := false;
      trace := trace + [Release];
    }

    /** countItems(): the number of stored keys. */
    method CountItems() returns (n: int)
      requires Valid() && locked
      modifies this
      ensures Valid() && locked
      ensures n == |items| && items == old(items)
      ensures trace == old(trace) + [Call(StoreCall.CountItems)]
    {
      LockStateAppend(trace, Call(StoreCall.CountItems));
      trace := trace + [Call(StoreCall.CountItems)];
      n := |items|;
    }

    /** itemExists(key): 1 when the key is stored, else 0. */
    method ItemExists(key: string) returns (flag: int)
      requires Valid() && locked
      modifies this
      ensures Valid() && locked
      ensures (flag == 1 <==> key in items) && (flag == 0 <==> key !in items)
      ensures items == old(items) && trace == old(trace) + [Call(StoreCall.ItemExists(key))]
    {
      LockStateAppend(trace, Call(StoreCall.ItemExists(key)));
      trace := trace + [Call(StoreCall.ItemExists(key))];
      flag := ExistsFlag(items, key);
    }

    /** findValue(key): the stored value, or NULL. */
    method FindValue(key: string) returns (found: Option<string>)
      requires Valid() && locked
      modifies this
      ensures Valid() && locked
      ensures found.Some? <==> key in items
      ensures found.Some? ==> found.value == items[key]
      ensures items == old(items) && trace == old(trace) + [Call(StoreCall.FindValue(key))]
    {
      LockStateAppend(trace, Call(StoreCall.FindValue(key)));
      trace := trace + [Call(StoreCall.FindValue(key))];
      found := Find(items, key);
    }

    /** createItem(key, value): 0 and the key bound to the value, or a nonzero status and no change. */
    method CreateItem(key: string, value: string) returns (status: int)
      requires Valid() && locked
      modifies this
      ensures Valid() && locked
      ensures status == policy.create(old(items), key, value)
      ensures status == 0 ==> items == old(items)[key := value]
      ensures status != 0 ==> items == old(items)
      ensures trace == old(trace) + [Call(StoreCall.CreateItem(key, value))]
    {
      LockStateAppend(trace, Call(StoreCall.CreateItem(key, value)));
      trace := trace + [Call(StoreCall.CreateItem(key, value))];
      status := policy.create(items, key, value);
      items := AfterCreate(items, key, value, status);
    }

    /** deleteItem(key, false): 0 and the key removed, or a nonzero status and no change. */
    method DeleteItem(key: string) returns (status: int)
      requires Valid() && locked
      modifies this
      ensures Valid() && locked
      ensures status == policy.delete(old(items), key)
      ensures status == 0 ==> items == old(items) - {key}
      ensures status != 0 ==> items == old(items)
      ensures trace == old(trace) + [Call(StoreCall.DeleteItem(key))]
    {
      LockStateAppend(trace, Call(StoreCall.DeleteItem(key)));
      trace := trace + [Call(StoreCall.DeleteItem(key))];
      status := policy.delete(items, key);
      items := AfterDelete(items, key, status);
    }
  }
}
