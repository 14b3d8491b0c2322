// The client's check: every version of the triangle job gives the answer of the sequential one.
module Jobs {
  import T = Triangle
  import CountPath
  import Reduction
  import Priority

  /** Row-by-row actor followed by the reduction, the in-place actor from two rows on, and the paths themselves: run
      until nothing is in flight, in any order of deliveries, all of them give the optimum. */
  lemma AllVersionsAgree(t: T.Triangle, s1: CountPath.State, ms1: seq<CountPath.Msg>, s2: Reduction.State,
                         ms2: seq<Reduction.Msg>, s3: Priority.State, ms3: seq<Priority.Msg>)
    requires |t[|t| - 1]| == |t| && CountPath.Idle(s1) && Priority.Idle(s3)
    requires CountPath.LegalRun(CountPath.Begin(s1, t), ms1) && CountPath.Run(CountPath.Begin(s1, t), ms1).inflight == multiset{}
    ensures var w1 := CountPath.Run(CountPath.Begin(s1, t), ms1);
            && |w1.out| == 1 && w1.out[0] == T.Row(t, |t| - 1)
            && (Reduction.LegalRun(Reduction.Begin(s2, w1.out[0]), ms2)
                && Reduction.Run(Reduction.Begin(s2, w1.out[0]), ms2).inflight == multiset{} ==>
                  Reduction.Run(Reduction.Begin(s2, w1.out[0]), ms2).out == [T.Best(t)])
    ensures |t| >= 2 && Priority.LegalRun(Priority.Begin(s3, t), ms3)
            && Priority.Run(Priority.Begin(s3, t), ms3).inflight == multiset{} ==>
              Priority.Run(Priority.Begin(s3, t), ms3).out == [T.Best(t)]
    ensures exists p :: T.FullPath(t, p) && T.Sum(t, p) == T.Best(t)
    ensures forall p | T.FullPath(t, p) :: T.Best(t) <= T.Sum(t, p)
  {
    CountPath.EveryOrderSolves(s1, t, ms1);
    var w1 := CountPath.Run(CountPath.Begin(s1, t), ms1);
    assert w1.out[0][..|t|] == w1.out[0];
    if Reduction.LegalRun(Reduction.Begin(s2, w1.out[0]), ms2)
       && Reduction.Run(Reduction.Begin(s2, w1.out[0]), ms2).inflight == multiset{} {
      Reduction.EveryOrderReduces(s2, w1.out[0], ms2);
    }
    if |t| >= 2 && Priority.LegalRun(Priority.Begin(s3, t), ms3)
       && Priority.Run(Priority.Begin(s3, t), ms3).inflight == multiset{} {
      Priority.EveryOrderSolves(s3, t, ms3);
    }
    T.BestIsOptimal(t);
  }
}
