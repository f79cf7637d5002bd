/** The last reap before the program ends: it polls until three polls in a row found nothing, a poll failed, or
    time is up. */
module FinalReap {

  datatype Poll = Nothing | Reaped(pid: int) | Failed

  /** After n polls there is reason to stop: too late, the last one failed, or the last three found nothing. */
  ghost predicate Enough(poll: nat -> Poll, late: nat -> bool, n: nat) {
    || late(n)
    || (n >= 1 && poll(n - 1) == Failed)
    || (n >= 3 && poll(n - 1) == Nothing && poll(n - 2) == Nothing && poll(n - 3) == Nothing)
  }

  /** The length of the run of empty polls that ends before poll n. */
  ghost function Run(poll: nat -> Poll, n: nat): nat {
    if n == 0 || poll(n - 1) != Nothing then 0 else 1 + Run(poll, n - 1)
  }

  lemma RunOfThree(poll: nat -> Poll, n: nat)
    ensures Run(poll, n) >= 3 <==> n >= 3 && poll(n - 1) == Nothing && poll(n - 2) == Nothing && poll(n - 3) == Nothing
  {
    if n >= 1 && poll(n - 1) == Nothing {
      assert Run(poll, n) == 1 + Run(poll, n - 1);
      if n >= 2 && poll(n - 2) == Nothing {
        assert Run(poll, n - 1) == 1 + Run(poll, n - 2);
      }
    }
  }

  /** `FinalReap`; poll(k) is what the k-th call of waitWithPid brings, late(k) what the clock says before it. It
      stops at the first number of polls that is enough. */
  method FinalReap(poll: nat -> Poll, late: nat -> bool, ghost deadline: nat) returns (polls: nat)
    requires late(deadline)
    ensures Enough(poll, late, polls)
    ensures forall k :: 0 <= k < polls ==> !Enough(poll, late, k)
  {
    polls := 0;
    var consecutiveNoProcess := 0;
    while true
      invariant polls <= deadline && consecutiveNoProcess == Run(poll, polls) < 3
      invariant polls >= 1 ==> poll(polls - 1) != Failed
      invariant forall k :: 0 <= k < polls ==> !Enough(poll, late, k)
      decreases deadline - polls
    {
      if late(polls) {
        return;
      }
      RunOfThree(poll, polls);
      RunOfThree(poll, polls + 1);
      var result := poll(polls);
      polls := polls + 1;
      if result == Failed {
        return;
      }
      if result == Nothing {
        consecutiveNoProcess := consecutiveNoProcess + 1;
        if consecutiveNoProcess >= 3 {
          return;
        }
      } else {
        consecutiveNoProcess := 0;
      }
    }
  }
}
