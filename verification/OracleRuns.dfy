/** The oracle over whole runs: what a confirmed divergence takes. */
module OracleRuns {
  import opened Core
  import opened Oracle

  function Run(cs: seq<Cycle>): Option<Suspect> {
    if cs == [] then None else Recall(Run(cs[..|cs| - 1]), cs[|cs| - 1])
  }

  /** The last n cycles all diverged in exactly this way. */
  predicate Repeats(cs: seq<Cycle>, sig: set<Diff>, n: nat) {
    n <= |cs| && forall i :: |cs| - n <= i < |cs| ==> cs[i] == Compared(sig)
  }

  lemma RepeatsOneMore(cs: seq<Cycle>, sig: set<Diff>, n: nat)
    requires cs != [] && 0 < n
    ensures Repeats(cs, sig, n) <==> cs[|cs| - 1] == Compared(sig) && Repeats(cs[..|cs| - 1], sig, n - 1)
  {
    var init := cs[..|cs| - 1];
    assert forall i :: 0 <= i < |init| ==> init[i] == cs[i];
  }

  /** The suspect's count is the length of the unbroken run of one signature. */
  lemma {:induction false} CountIsTheStreak(cs: seq<Cycle>, sig: set<Diff>, n: nat)
    requires sig != {} && 0 < n
    ensures Run(cs).Some? ==> Run(cs).value.sig != {} && Run(cs).value.count > 0
    ensures (Run(cs).Some? && Run(cs).value.sig == sig && Run(cs).value.count >= n) <==> Repeats(cs, sig, n)
  {
    if cs != [] {
      RepeatsOneMore(cs, sig, n);
      CountIsTheStreak(cs[..|cs| - 1], sig, if n == 1 then 1 else n - 1);
    }
  }

  /** A violation is reported exactly when the last `confirmCycles` completed
      groups, this one included, were all compared and all diverged in the same
      orders and fields: a match, a group that could not be compared, or a reset
      in between starts the count again. */
  lemma ViolationTakesAnUnbrokenStreak(cs: seq<Cycle>, c: Cycle, confirmCycles: int)
    ensures Report(Run(cs), c, confirmCycles) == [Finding(Violation, NoReason)]
      <==> c.Compared? && c.sig != {} && Repeats(cs + [c], c.sig, Needed(confirmCycles))
  {
    var all := cs + [c];
    assert all[..|all| - 1] == cs;
    if c.Compared? && c.sig != {} {
      CountIsTheStreak(all, c.sig, Needed(confirmCycles));
    }
  }
}
