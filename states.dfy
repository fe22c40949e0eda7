/**
 * The state machine of state.go and state_manager.go.  A manager holds a
 * default, a previous and a current state; changing state exits the current
 * one (if any) and enters the new one.  States are identified by values of a
 * type S chosen by the owner; the manager's operations return the hooks they
 * fire, in order, and the owner runs them (the owner knows what its states
 * do on entry, exit and tick).
 */
module States {

  import opened Optional

  /** A hook a manager fires on a state: OnEnter, OnExit or Tick. */
  datatype Hook<S> = Enter(state: S) | Exit(state: S) | Tick(state: S)

  /** The library's State: no fields, and all three hooks do nothing. */
  class State {
    constructor ()
    {
    }

    method OnEnter()
    {
    }

    method OnExit()
    {
    }

    method Tick()
    {
    }
  }

  /** The manager's three fields as a value. */
  datatype Machine<S> = Machine(default: S, previous: S, current: Option<S>)

  /** NewStateManager: nothing entered yet; previous and default are the argument. */
  function Fresh<S>(d: S): Machine<S>
  {
    Machine(d, d, None)
  }

  /** ChangeState: the new machine and the hooks fired, in order. */
  function Change<S>(m: Machine<S>, s: S): (Machine<S>, seq<Hook<S>>)
  {
    match m.current
    case None => (m.(current := Some(s)), [Enter(s)])
    case Some(c) => (Machine(m.default, c, Some(s)), [Exit(c), Enter(s)])
  }

  /** Update: enter the default state first if nothing was entered, then tick the current state. */
  function Step<S>(m: Machine<S>): (Machine<S>, seq<Hook<S>>)
  {
    match m.current
    case None => (m.(current := Some(m.default)), [Enter(m.default), Tick(m.default)])
    case Some(c) => (m, [Tick(c)])
  }

  /** The operations of the manager's interface. */
  datatype Op<S> = ChangeTo(s: S) | BackToDefault | BackToPrevious | Update

  function Apply<S>(m: Machine<S>, op: Op<S>): (Machine<S>, seq<Hook<S>>)
  {
    match op
    case ChangeTo(s) => Change(m, s)
    case BackToDefault => Change(m, m.default)
    case BackToPrevious => Change(m, m.previous)
    case Update => Step(m)
  }

  /** A run of operations: the final machine and every hook fired, in order. */
  function Run<S>(m: Machine<S>, ops: seq<Op<S>>): (Machine<S>, seq<Hook<S>>)
    decreases |ops|
  {
    if ops == [] then (m, [])
    else
      var (m1, h1) := Apply(m, ops[0]);
      var (m2, h2) := Run(m1, ops[1..]);
      (m2, h1 + h2)
  }

  /** The hooks a call fires that enter a state or exit one. */
  function Transitions<S>(hooks: seq<Hook<S>>): nat
  {
    if hooks == [] then 0 else (if hooks[0].Tick? then 0 else 1) + Transitions(hooks[1..])
  }

  /**
   * ChangeState fires the exit of the state being left strictly before the
   * entry of the new one, records the left state as previous, and makes the
   * new state current; with nothing entered yet it fires only the entry and
   * keeps previous.
   */
  lemma ChangeOrder<S>(m: Machine<S>, s: S)
    ensures Change(m, s).0.current == Some(s) && Change(m, s).0.default == m.default
    ensures m.current.Some? ==> Change(m, s).1 == [Exit(m.current.value), Enter(s)] && Change(m, s).0.previous == m.current.value
    ensures m.current.None? ==> Change(m, s).1 == [Enter(s)] && Change(m, s).0.previous == m.previous
    ensures forall i :: 0 <= i < |Change(m, s).1| ==> (Change(m, s).1[i].Exit? <==> i == 0 && m.current.Some?)
  {
  }

  /** No operation changes the default state. */
  lemma {:induction false} RunKeepsDefault<S>(m: Machine<S>, ops: seq<Op<S>>)
    ensures Run(m, ops).0.default == m.default
    decreases |ops|
  {
    if ops != [] {
      RunKeepsDefault(Apply(m, ops[0]).0, ops[1..]);
    }
  }

  /** Once a state has been entered, no run of operations leaves the manager without a current state. */
  lemma {:induction false} CurrentStaysSet<S>(m: Machine<S>, ops: seq<Op<S>>)
    requires m.current.Some?
    ensures Run(m, ops).0.current.Some?
    decreases |ops|
  {
    if ops != [] {
      CurrentStaysSet(Apply(m, ops[0]).0, ops[1..]);
    }
  }

  /** After the first operation a fresh manager always has a current state. */
  lemma FirstOpEnters<S>(d: S, ops: seq<Op<S>>)
    requires ops != []
    ensures Run(Fresh(d), ops).0.current.Some?
  {
    CurrentStaysSet(Apply(Fresh(d), ops[0]).0, ops[1..]);
  }

  /** BackToPrevious twice in a row restores the manager exactly, once a state has been entered. */
  lemma BackToPreviousTwice<S>(m: Machine<S>)
    requires m.current.Some?
    ensures Apply(Apply(m, BackToPrevious).0, BackToPrevious).0 == m
    ensures Apply(m, BackToPrevious).0.current == Some(m.previous)
    ensures Apply(m, BackToPrevious).0.previous == m.current.value
  {
  }

  /** With nothing entered yet, BackToPrevious enters the default state (previous starts as default). */
  lemma BackToPreviousFresh<S>(d: S)
    ensures Apply(Fresh(d), BackToPrevious) == Apply(Fresh(d), BackToDefault)
    ensures Apply(Fresh(d), BackToPrevious).1 == [Enter(d)]
  {
  }

  /** n ticks of one state. */
  function Ticks<S>(s: S, n: nat): (hooks: seq<Hook<S>>)
    ensures |hooks| == n
    ensures forall i :: 0 <= i < n ==> hooks[i] == Tick(s)
  {
    if n == 0 then [] else [Tick(s)] + Ticks(s, n - 1)
  }

  function Updates<S>(n: nat): (ops: seq<Op<S>>)
    ensures |ops| == n && forall i :: 0 <= i < n ==> ops[i] == Update
  {
    if n == 0 then [] else [Update] + Updates(n - 1)
  }

  /** Updates on an entered manager only tick its current state. */
  lemma {:induction false} UpdatesOnlyTick<S>(m: Machine<S>, n: nat)
    requires m.current.Some?
    ensures Run(m, Updates(n)) == (m, Ticks(m.current.value, n))
  {
    if n > 0 {
      assert Updates<S>(n)[1..] == Updates(n - 1);
      UpdatesOnlyTick(m, n - 1);
    }
  }

  /**
   * Lazy entry: n >= 1 Updates on a fresh manager enter the default state
   * exactly once, before its first tick, and then only tick it.
   */
  lemma UpdatesFromFresh<S>(d: S, n: nat)
    requires n >= 1
    ensures Run(Fresh(d), Updates(n)).1 == [Enter(d)] + Ticks(d, n)
    ensures Run(Fresh(d), Updates(n)).0 == Machine(d, d, Some(d))
  {
    var m1 := Machine(d, d, Some(d));
    assert Updates<S>(n)[1..] == Updates(n - 1);
    UpdatesOnlyTick(m1, n - 1);
    assert Ticks(d, n) == [Tick(d)] + Ticks(d, n - 1);
  }

  /** Each operation fires at most one entry and at most one exit, and every entry is of the new current state. */
  lemma ApplyHooks<S>(m: Machine<S>, op: Op<S>)
    ensures Transitions(Apply(m, op).1) <= 2
    ensures forall h :: h in Apply(m, op).1 && h.Enter? ==> Apply(m, op).0.current == Some(h.state)
    ensures forall h :: h in Apply(m, op).1 && h.Exit? ==> m.current == Some(h.state)
  {
    var hs := Apply(m, op).1;
    assert Transitions(hs) <= |hs| by { TransitionsBound(hs); }
  }

  lemma {:induction false} TransitionsBound<S>(hooks: seq<Hook<S>>)
    ensures Transitions(hooks) <= |hooks|
  {
    if hooks != [] {
      TransitionsBound(hooks[1..]);
    }
  }

  /**
   * A StateManager.  `current` is None until a state is entered.  Each
   * operation returns the hooks it fires, in order, for the owner to run.
   */
  class StateManager<S(==)> {
    var defaultState: S
    var previousState: S
    var currentState: Option<S>

    function View(): Machine<S>
      reads this
    {
      Machine(defaultState, previousState, currentState)
    }

    /** NewStateManager */
    constructor (defaultState: S)
      ensures View() == Fresh(defaultState)
    {
      this.defaultState := defaultState;
      previousState := defaultState;
      currentState := None;
    }

    method ChangeState(s: S) returns (hooks: seq<Hook<S>>)
      modifies this
      ensures View() == Change(old(View()), s).0 && hooks == Change(old(View()), s).1
    {
      hooks := [];
      if currentState.Some? {
        previousState := currentState.value;
        hooks := hooks + [Exit(currentState.value)];
      }
      currentState := Some(s);
      hooks := hooks + [Enter(s)];
    }

    method BackToDefault() returns (hooks: seq<Hook<S>>)
      modifies this
      ensures View() == Apply(old(View()), Op.BackToDefault).0 && hooks == Apply(old(View()), Op.BackToDefault).1
    {
      hooks := ChangeState(defaultState);
    }

    method BackToPrevious() returns (hooks: seq<Hook<S>>)
      modifies this
      ensures View() == Apply(old(View()), Op.BackToPrevious).0 && hooks == Apply(old(View()), Op.BackToPrevious).1
    {
      hooks := ChangeState(previousState);
    }

    method Update() returns (hooks: seq<Hook<S>>)
      modifies this
      ensures View() == Step(old(View())).0 && hooks == Step(old(View())).1
    {
      hooks := [];
      if currentState.None? {
        hooks := ChangeState(defaultState);
      }
      hooks := hooks + [Tick(currentState.value)];
    }
  }
}
