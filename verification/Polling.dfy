/**
 Polling with a deadline, as the scripts' loops do it: poll, look at the clock,
 sleep at least the interval, poll again.
 */
module Polling {
  /** ceil(budget / interval), 0 for a budget that is used up at once. */
  function PollsWithin(budget: int, interval: int): nat
    requires interval > 0
  {
    if budget <= 0 then 0 else (budget + interval - 1) / interval
  }

  lemma EarlyPoll(k: nat, budget: int, interval: int)
    requires interval > 0 && (k - 1) * interval < budget
    ensures k <= PollsWithin(budget, interval) || k == 0
  {
    var q := PollsWithin(budget, interval);
    assert budget > 0 ==> q * interval >= budget;
    MulMonotone(k - 1, q, interval);
  }

  lemma MulMonotone(a: int, b: int, c: int)
    requires c > 0
    ensures a >= b ==> a * c >= b * c
  {
  }

  /** What the first polls saw made each of them go on, before the deadline;
      `now(k + 1)` is the clock after poll `k`. */
  predicate WaitedOn<T>(goesOn: T -> bool, look: nat -> T, now: nat -> int, deadline: int, polls: nat) {
    forall k: nat :: k < polls ==> goesOn(look(k)) && now(k + 1) < deadline
  }

  lemma NoneWaited<T>(goesOn: T -> bool, look: nat -> T, now: nat -> int, deadline: int)
    ensures WaitedOn(goesOn, look, now, deadline, 0)
  {
  }

  lemma WaitedOnce<T>(goesOn: T -> bool, look: nat -> T, now: nat -> int, deadline: int, polls: nat)
    requires WaitedOn(goesOn, look, now, deadline, polls) && goesOn(look(polls)) && now(polls + 1) < deadline
    ensures WaitedOn(goesOn, look, now, deadline, polls + 1)
  {
  }
}
