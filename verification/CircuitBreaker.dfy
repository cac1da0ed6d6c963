/** The circuit breaker: an object, and the value it denotes. */
module Breakers {

  datatype State = Closed | Open | HalfOpen

  datatype Breaker = Breaker(state: State, fails: nat, threshold: int, cooldown: int, lastTripped: int, halfOpenActive: bool)

  function NewBreaker(threshold: int, cooldown: int): Breaker {
    Breaker(Closed, 0, threshold, cooldown, 0, false)
  }

  /** The breaker after an admission check, and whether the request may go on. */
  function AfterCheck(b: Breaker, now: int): (Breaker, bool) {
    match b.state
    case Closed => (b, true)
    case Open =>
      if now - b.lastTripped >= b.cooldown then (b.(state := HalfOpen, halfOpenActive := true), true) else (b, false)
    case HalfOpen =>
      if b.halfOpenActive then (b, false) else (b.(halfOpenActive := true), true)
  }

  function AfterSuccess(b: Breaker): Breaker {
    b.(fails := 0, state := Closed, halfOpenActive := false)
  }

  function AfterFailure(b: Breaker, now: int): Breaker {
    if b.state == HalfOpen then b.(state := Open, lastTripped := now, halfOpenActive := false)
    else if b.fails + 1 >= b.threshold then b.(fails := b.fails + 1, state := Open, lastTripped := now)
    else b.(fails := b.fails + 1)
  }

  /** Who is admitted, in every state of the fields, and what the check changes: an open breaker that
      admits turns half-open, and whoever is admitted past a breaker that is not closed is its probe. */
  lemma CheckExact(b: Breaker, now: int)
    ensures var (b', admitted) := AfterCheck(b, now);
            && (admitted <==> b.state == Closed || (b.state == Open && b.lastTripped + b.cooldown <= now) || (b.state == HalfOpen && !b.halfOpenActive))
            && (b'.state == Open <==> b.state == Open && !admitted) && (b'.state == Closed <==> b.state == Closed)
            && (b'.halfOpenActive <==> b.halfOpenActive || (admitted && b.state != Closed))
            && b'.fails == b.fails && b'.lastTripped == b.lastTripped && b'.threshold == b.threshold && b'.cooldown == b.cooldown
  {
  }

  class CircuitBreaker {
    var state: State
    var consecutiveFails: nat
    const threshold: int
    const cooldown: int
    var lastTripped: int
    var halfOpenActive: bool

    ghost function View(): Breaker
      reads this
    {
      Breaker(state, consecutiveFails, threshold, cooldown, lastTripped, halfOpenActive)
    }

    constructor (threshold: int, cooldown: int)
      ensures View() == NewBreaker(threshold, cooldown)
    {
      this.threshold, this.cooldown := threshold, cooldown;
      state, consecutiveFails, lastTripped, halfOpenActive := Closed, 0, 0, false;
    }

    method Allow(now: int) returns (admitted: bool)
      modifies this
      ensures (View(), admitted) == AfterCheck(old(View()), now)
    {
      match state
      case Closed =>
        return true;
      case Open =>
        if now - lastTripped >= cooldown {
          state := HalfOpen;
          halfOpenActive := true;
          return true;
        }
        return false;
      case HalfOpen =>
        if halfOpenActive {
          return false;
        }
        halfOpenActive := true;
        return true;
    }

    method RecordSuccess()
      modifies this
      ensures View() == AfterSuccess(old(View()))
    {
      consecutiveFails := 0;
      state := Closed;
      halfOpenActive := false;
    }

    method RecordFailure(now: int)
      modifies this
      ensures View() == AfterFailure(old(View()), now)
    {
      if state == HalfOpen {
        state := Open;
        lastTripped := now;
        halfOpenActive := false;
        return;
      }
      consecutiveFails := consecutiveFails + 1;
      if consecutiveFails >= threshold {
        state := Open;
        lastTripped := now;
      }
    }
  }
}
