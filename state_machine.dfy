/** The game's screen state machine (class StateMachine in
    src/states/state-machine.ts): registered states with optional enter,
    update, render and exit hooks, and the key of the current state. The
    hooks themselves run game code outside this model; what the model keeps
    is which hooks are called, for which key, and in which order. */
module StateMachines {
  import opened Entities

  /** A registered state: which of its optional hooks it provides. */
  datatype State = State(hasEnter: bool, hasUpdate: bool, hasRender: bool, hasExit: bool)

  datatype Hook = OnEnter | OnUpdate(dt: real) | OnRender | OnExit

  /** One hook call on the state registered under key. */
  datatype Event<K> = Event(key: K, hook: Hook)

  /** The state under key provides the hook. */
  predicate Provides<K>(states: map<K, State>, key: K, hook: Hook) {
    key in states &&
    match hook
    case OnEnter => states[key].hasEnter
    case OnUpdate(_) => states[key].hasUpdate
    case OnRender => states[key].hasRender
    case OnExit => states[key].hasExit
  }

  /** The hook calls of transition(key): the current state's exit hook (when
      there is a current state and it provides one), then the new state's
      enter hook (when it is registered and provides one). */
  function TransitionEvents<K>(states: map<K, State>, current: Option<K>, key: K): (r: seq<Event<K>>)
    ensures |r| <= 2
    ensures |r| == (if current.Some? && Provides(states, current.value, OnExit) then 1 else 0)
                 + (if Provides(states, key, OnEnter) then 1 else 0)
    ensures (Event(key, OnEnter) in r) <==> Provides(states, key, OnEnter)
    ensures (exists e :: e in r && e.hook == OnExit) <==> current.Some? && Provides(states, current.value, OnExit)
    ensures current.None? ==> forall e :: e in r ==> e.hook == OnEnter
    ensures forall j :: 0 <= j < |r| ==> (r[j].hook == OnExit ==> j == 0 && r[j].key == current.value)
    ensures forall j :: 0 <= j < |r| ==> r[j].hook == OnExit || r[j] == Event(key, OnEnter)
  {
    var exit := if current.Some? && Provides(states, current.value, OnExit) then [Event(current.value, OnExit)] else [];
    var enter := if Provides(states, key, OnEnter) then [Event(key, OnEnter)] else [];
    exit + enter
  }

  /** The hook calls of update(dt) or render(): the current state's hook,
      when there is a current state, it is registered, and it provides one. */
  function HookEvents<K>(states: map<K, State>, current: Option<K>, hook: Hook): (r: seq<Event<K>>)
    requires hook.OnUpdate? || hook.OnRender?
    ensures |r| <= 1
    ensures r == [] <==> current.None? || !Provides(states, current.value, hook)
    ensures r != [] ==> r == [Event(current.value, hook)]
  {
    if current.Some? && Provides(states, current.value, hook) then [Event(current.value, hook)] else []
  }

  class StateMachine<K(==)> {
    var states: map<K, State>
    var current: Option<K>
    /** Every hook call so far, in order. */
    ghost var log: seq<Event<K>>

    /** A machine with no states and no current state. */
    constructor ()
      ensures states == map[] && CurrentKey() == None && log == []
    {
      states := map[];
      current := None;
      log := [];
    }

    /** currentKey: the key of the last transition, or none before the first. */
    function CurrentKey(): Option<K>
      reads this
    {
      current
    }

    /** register: add the state under key, replacing any earlier one; no hook
        runs and the current key stays. */
    method Register(key: K, state: State)
      modifies this`states
      ensures states == old(states)[key := state]
      ensures forall k :: k in old(states) && k != key ==> k in states && states[k] == old(states)[k]
      ensures CurrentKey() == old(CurrentKey()) && log == old(log)
    {
      states := states[key := state];
    }

    /** transition: exit the current state, make key current (registered or
        not), and enter it. */
    method Transition(key: K)
      modifies this`current, this`log
      ensures CurrentKey() == Some(key)
      ensures log == old(log) + TransitionEvents(states, old(current), key)
    {
      if current.Some? {
        if current.value in states && states[current.value].hasExit {
          log := log + [Event(current.value, OnExit)];
        }
      }
      current := Some(key);
      if key in states && states[key].hasEnter {
        log := log + [Event(key, OnEnter)];
      }
    }

    /** update: run the current state's update hook, if any. */
    method Update(dt: real)
      modifies this`log
      ensures log == old(log) + HookEvents(states, current, OnUpdate(dt))
    {
      if current.Some? {
        if current.value in states && states[current.value].hasUpdate {
          log := log + [Event(current.value, OnUpdate(dt))];
        }
      }
    }

    /** render: run the current state's render hook, if any. */
    method Render()
      modifies this`log
      ensures log == old(log) + HookEvents(states, current, OnRender)
    {
      if current.Some? {
        if current.value in states && states[current.value].hasRender {
          log := log + [Event(current.value, OnRender)];
        }
      }
    }
  }

  // ---------------------------------------------------------------------------
  // Runs of transitions

  /** The hook calls of transitioning through keys in turn, starting from
      current, with the states left as they are. */
  function Run<K>(states: map<K, State>, current: Option<K>, keys: seq<K>): seq<Event<K>>
    decreases |keys|
  {
    if keys == [] then []
    else TransitionEvents(states, current, keys[0]) + Run(states, Some(keys[0]), keys[1..])
  }

  /** Every key is registered with both an enter and an exit hook. */
  predicate FullyHooked<K>(states: map<K, State>, keys: seq<K>) {
    forall k :: k in keys ==> k in states && states[k].hasEnter && states[k].hasExit
  }

  /** From a fresh machine, when every state has both hooks, the calls pair
      up: each state is entered, then exited before the next one is entered,
      and the last one stays entered. */
  lemma {:induction false} RunPairsEnterWithExit<K>(states: map<K, State>, keys: seq<K>)
    requires FullyHooked(states, keys) && keys != []
    ensures |Run(states, None, keys)| == 2 * |keys| - 1
    ensures forall j :: 0 <= j < |keys| ==> Run(states, None, keys)[2 * j] == Event(keys[j], OnEnter)
    ensures forall j :: 0 <= j < |keys| - 1 ==> Run(states, None, keys)[2 * j + 1] == Event(keys[j], OnExit)
  {
    RunFrom(states, keys[0], keys[1..]);
    assert forall k :: k in keys[1..] ==> k in keys;
    var r := Run(states, None, keys);
    var rest := Run(states, Some(keys[0]), keys[1..]);
    assert r == [Event(keys[0], OnEnter)] + rest;
    forall j | 0 <= j < |keys|
      ensures r[2 * j] == Event(keys[j], OnEnter)
    {
      if j > 0 {
        assert r[2 * j] == rest[2 * (j - 1) + 1];
        assert keys[1..][j - 1] == keys[j];
      }
    }
    forall j | 0 <= j < |keys| - 1
      ensures r[2 * j + 1] == Event(keys[j], OnExit)
    {
      assert r[2 * j + 1] == rest[2 * j];
      if j > 0 {
        assert keys[1..][j - 1] == keys[j];
      }
    }
  }

  /** From current state c, each transition exits the state entered last and
      enters the next one. */
  lemma {:induction false} RunFrom<K>(states: map<K, State>, c: K, keys: seq<K>)
    requires FullyHooked(states, [c] + keys)
    ensures |Run(states, Some(c), keys)| == 2 * |keys|
    ensures forall j :: 0 <= j < |keys| ==>
      && Run(states, Some(c), keys)[2 * j] == Event(if j == 0 then c else keys[j - 1], OnExit)
      && Run(states, Some(c), keys)[2 * j + 1] == Event(keys[j], OnEnter)
    decreases |keys|
  {
    if keys != [] {
      assert forall k :: k in [keys[0]] + keys[1..] ==> k in [c] + keys;
      RunFrom(states, keys[0], keys[1..]);
      var r := Run(states, Some(c), keys);
      var rest := Run(states, Some(keys[0]), keys[1..]);
      assert keys[0] in [c] + keys && c in [c] + keys;
      assert r == [Event(c, OnExit), Event(keys[0], OnEnter)] + rest;
      forall j | 0 <= j < |keys|
        ensures r[2 * j] == Event(if j == 0 then c else keys[j - 1], OnExit)
        ensures r[2 * j + 1] == Event(keys[j], OnEnter)
      {
        if j > 0 {
          assert r[2 * j] == rest[2 * (j - 1)];
          assert r[2 * j + 1] == rest[2 * (j - 1) + 1];
          assert keys[1..][j - 1] == keys[j];
          if j > 1 {
            assert keys[1..][j - 2] == keys[j - 1];
          }
        }
      }
    }
  }

  /** A self-transition on a state with both hooks exits it, then enters it again. */
  lemma SelfTransition<K>(states: map<K, State>, key: K)
    requires FullyHooked(states, [key])
    ensures TransitionEvents(states, Some(key), key) == [Event(key, OnExit), Event(key, OnEnter)]
  {
    assert key in [key];
  }
}
