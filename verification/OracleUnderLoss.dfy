/** The market-by-order oracle end to end: deltas lost, repeated or reset on one
    port, snapshot datagrams lost, cut or dropped on the other, in any
    interleaving. */
module OracleUnderLoss {
  import opened Core
  import opened Oracle
  import opened OracleTruth
  import GT = GateTrust
  import MG = MboGroups
  import ML = MboGroupsUnderLoss

  /** A group judged was handed on by the snapshot port; and what the publisher
      finished lists its book truthfully, in the lifecycle in which it was
      captured. */
  predicate HonestTurn(t: Turn, done: seq<MG.Group>, ended: seq<ML.Sending>, pub: nat -> Career) {
    t.Judged? ==> t.g in done && forall s :: s in ended && ML.Same(t.g, s) ==> TrueOf(t.g, pub(t.life))
  }

  predicate Honest(ts: seq<Turn>, done: seq<MG.Group>, ended: seq<ML.Sending>, pub: nat -> Career) {
    forall i :: 0 <= i < |ts| ==> HonestTurn(ts[i], done, ended, pub)
  }

  predicate DeltasTold(ts: seq<Turn>, pub: nat -> Career) {
    forall i :: 0 <= i < |ts| && ts[i].Heard? ==> TrueTurn(ts[i], pub)
  }

  lemma {:induction false} HonestIsTold(
    ts: seq<Turn>, done: seq<MG.Group>, ended: seq<ML.Sending>, pub: nat -> Career)
    requires Honest(ts, done, ended, pub) && ML.AllAccounted(done, ended)
    ensures GroupsTold(ts, pub)
  {
    forall i | 0 <= i < |ts| && ts[i].Judged? ensures TrueTurn(ts[i], pub) {
      assert HonestTurn(ts[i], done, ended, pub);
      if !ts[i].g.structural {
        assert ML.Accounted(ts[i].g, ended);
        var s :| s in ended && ML.Same(ts[i].g, s);
      }
    }
  }

  /** For a publisher whose finished groups list its book truthfully: from any
      point of its rotation, whatever is lost, cut or dropped on the snapshot
      port, and whatever is lost, repeated, reset or late on the market-data port
      between the groups, the oracle only ever passes it or leaves it unverifiable
      exactly when each group compared lists just what the deltas taken in since
      the last reset or wipe give from an empty book. */
  lemma {:induction false} LossOnBothPortsSuspectsExactly(
    p: ML.Publisher, first: nat, es: seq<ML.Event>,
    ts: seq<Turn>, pub: nat -> Career, l: GT.Limits, confirmCycles: int)
    requires p.Valid() && ML.CanRun(ML.Start(p, first), es)
    requires var y := ML.Start(p, first); Honest(ts, ML.RunDone(y, es), ML.RunEnded(y, es), pub)
    ensures Quiet(ReportsIn(ts, l, confirmCycles)) <==> AllMeet(ts, pub, l)
  {
    var y := ML.Start(p, first);
    ML.CompletedGroupsAreSent(y, es);
    HonestIsTold(ts, ML.RunDone(y, es), ML.RunEnded(y, es), pub);
    SuspectedExactly(ts, pub, l, confirmCycles);
  }

  /** And always, if its lifecycles open clear, no group is judged after the deltas
      started over, and no delta of a left lifecycle opens or continues the new
      count. */
  lemma {:induction false} TruthSurvivesLossOnBothPorts(
    p: ML.Publisher, first: nat, es: seq<ML.Event>,
    ts: seq<Turn>, pub: nat -> Career, l: GT.Limits, confirmCycles: int)
    requires p.Valid() && ML.CanRun(ML.Start(p, first), es)
    requires DeltasTold(ts, pub) && DeltasInTime(ts) && GroupsInTime(ts, pub) && AllClear(pub)
    requires var y := ML.Start(p, first); Honest(ts, ML.RunDone(y, es), ML.RunEnded(y, es), pub)
    ensures Quiet(ReportsIn(ts, l, confirmCycles))
  {
    var y := ML.Start(p, first);
    ML.CompletedGroupsAreSent(y, es);
    HonestIsTold(ts, ML.RunDone(y, es), ML.RunEnded(y, es), pub);
    TruthIsNeverSuspected(ts, pub, l, confirmCycles);
  }
}
