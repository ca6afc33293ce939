/**
 * INT_ENABLE, INT_DISABLE and INT_WAIT.
 *
 * The emulator has no interrupt source. It keeps the global `ints_enabled`
 * and a mutex, `int_wait`, that INT_WAIT passes through (lock, then unlock)
 * and that INT_ENABLE leaves locked, so that a waiter sleeps until
 * INT_DISABLE unlocks it. The mutex is modelled by whether it is held; a
 * lock on a held mutex is reported as the call blocking.
 */
module Interrupts {

  /** ints_enabled and whether int_wait is held. */
  datatype IntState = IntState(enabled: bool, gateHeld: bool)

  /** fEnableOk, fStopped and dwCounter of the interrupt payload. */
  datatype Interrupt = Interrupt(enableOk: nat, stopped: nat, counter: nat)

  datatype WaitOutcome = Returned | Blocked

  /** pthread_mutex_trylock: takes the mutex if it is free; returns whether
      it was busy. */
  function TryLock(held: bool): (r: (bool, bool))
    ensures r.1  // the mutex is held afterwards either way
    ensures r.0 == held
  {
    (held, true)
  }

  /** INT_ENABLE: interrupts on, the payload marked enabled and running, the
      gate taken if it was free. */
  function Enable(s: IntState, it: Interrupt): (r: (IntState, Interrupt))
    ensures r.0 == IntState(true, true)
    ensures r.1 == it.(enableOk := 1, stopped := 0)
  {
    var (_, held) := TryLock(s.gateHeld);
    (IntState(true, held), it.(enableOk := 1, stopped := 0))
  }

  /** INT_DISABLE: interrupts off, the payload's counter cleared and marked
      stopped; the trylock-then-unlock-if-busy sequence releases a held gate
      but takes a free one (and keeps it). */
  function Disable(s: IntState, it: Interrupt): (r: (IntState, Interrupt))
    ensures r.0 == IntState(false, !s.gateHeld)
    ensures r.1 == it.(counter := 0, stopped := 1)
  {
    var (busy, _) := TryLock(s.gateHeld);
    var held := if busy then false else true;
    (IntState(false, held), it.(counter := 0, stopped := 1))
  }

  /** INT_WAIT: with a device selected and a zero counter it returns at once
      and sets the counter to 1; otherwise it passes through the gate, which
      blocks while the gate is held. It never changes the gate. */
  function Wait(deviceSelected: bool, s: IntState, it: Interrupt): (r: (WaitOutcome, Interrupt))
    ensures deviceSelected && it.counter == 0 ==> r == (Returned, it.(counter := 1))
    ensures !(deviceSelected && it.counter == 0) ==>
      r == (if s.gateHeld then Blocked else Returned, it)
  {
    if deviceSelected && it.counter == 0 then (Returned, it.(counter := 1))
    else if s.gateHeld then (Blocked, it)
    else (Returned, it)
  }

  /** Enabling twice is the same as enabling once. */
  lemma {:induction false} EnableIdempotent(s: IntState, it: Interrupt)
    ensures Enable(Enable(s, it).0, Enable(s, it).1) == Enable(s, it)
  {
  }

  /** After INT_ENABLE the first INT_WAIT (counter 0, device selected)
      returns at once with the counter set; the next one blocks until
      INT_DISABLE, which frees the gate so that a waiter returns. */
  lemma {:induction false} EnableWaitWaitDisable(s: IntState, it: Interrupt)
    requires it.counter == 0
    ensures var (s1, it1) := Enable(s, it);
            var (o2, it2) := Wait(true, s1, it1);
            var (o3, it3) := Wait(true, s1, it2);
            var (s4, _) := Disable(s1, it3);
            && o2 == Returned && it2.counter == 1
            && o3 == Blocked
            && !s4.gateHeld && Wait(true, s4, it3).0 == Returned
  {
  }

  /** INT_DISABLE with the gate free leaves it held: a later INT_WAIT that
      does not take the counter shortcut blocks although interrupts are
      disabled. */
  lemma {:induction false} DisableTwiceHoldsGate(s: IntState, it: Interrupt)
    requires s.gateHeld
    ensures var (s1, it1) := Disable(s, it);
            var (s2, it2) := Disable(s1, it1);
            && !s1.gateHeld && s2.gateHeld && !s2.enabled
            && Wait(false, s2, it2).0 == Blocked
  {
  }
}
