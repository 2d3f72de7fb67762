/** What the failure counter counts: the largest excess of failures over passes among all the
    stretches of polls that end now. */
module FailureCounter {
  import opened Integers
  import opened PortTypes
  import opened PortSpec
  import opened Runs

  function Score(verdicts: seq<int>): int {
    if |verdicts| == 0 then 0 else Score(verdicts[..|verdicts| - 1]) + verdicts[|verdicts| - 1]
  }

  /** `best` is the largest score of a suffix of `verdicts`, the empty one included. */
  ghost predicate BestSuffix(verdicts: seq<int>, best: int) {
    && (forall k :: 0 <= k <= |verdicts| ==> Score(verdicts[k..]) <= best)
    && (exists k :: 0 <= k <= |verdicts| && Score(verdicts[k..]) == best)
  }

  lemma ScoreSnoc(verdicts: seq<int>, v: int, k: nat)
    requires k <= |verdicts|
    ensures Score((verdicts + [v])[k..]) == Score(verdicts[k..]) + v
  {
    var s := (verdicts + [v])[k..];
    assert s[..|s| - 1] == verdicts[k..];
  }

  /** The clamped counter is the best suffix score: one verdict more. */
  lemma BestSuffixStep(verdicts: seq<int>, v: int, best: int)
    requires BestSuffix(verdicts, best)
    ensures BestSuffix(verdicts + [v], if best + v > 0 then best + v else 0)
  {
    var longer := verdicts + [v];
    var next := if best + v > 0 then best + v else 0;
    assert longer[|longer|..] == [];
    forall k | 0 <= k <= |longer| ensures Score(longer[k..]) <= next {
      if k <= |verdicts| {
        ScoreSnoc(verdicts, v, k);
      }
    }
    var k :| 0 <= k <= |verdicts| && Score(verdicts[k..]) == best;
    ScoreSnoc(verdicts, v, k);
    assert Score(longer[if best + v > 0 then k else |longer|..]) == next;
  }

  /** The verdicts of the polls in REGULAR_STATE since the counter was last set to zero. */
  ghost function History(params: Params, config: PortConfig, envs: seq<Env>): seq<int>
    decreases |envs|
  {
    if |envs| == 0 then []
    else
      var front := envs[..|envs| - 1];
      HistoryStep(History(params, config, front), params, After(params, config, front), envs[|envs| - 1])
  }

  ghost function HistoryStep(h: seq<int>, params: Params, p: Port, env: Env): seq<int> {
    if Occurs(CountedReset, params, p, env) || Occurs(ManualResetDone, params, p, env) then []
    else if p.reset.state == RegularState then h + [Verdict(Seen(p, env).reset.errorCode)]
    else h
  }

  lemma CounterStep(params: Params, p: Port, env: Env, h: seq<int>)
    requires BestSuffix(h, p.reset.errorTestCount) && !Occurs(FailureLost, params, p, env)
    ensures BestSuffix(HistoryStep(h, params, p, env), Tick(params, p, env).reset.errorTestCount)
  {
    hide Tick, Seen, BestSuffix;
    SeenChanges(p, env);
    TickAfterRearm(params, p, env);
    if p.reset.state == RegularState {
      BestSuffixStep(h, Verdict(Seen(p, env).reset.errorCode), p.reset.errorTestCount);
    }
    EmptyHistory();
  }

  lemma EmptyHistory()
    ensures BestSuffix([], 0)
  {
    var none: seq<int> := [];
    assert Score(none[0..]) == 0;
  }

  /** On every run, whatever is raised from outside: as long as no failure is counted with the
      counter at 255, the counter is the largest excess of failures over passes in a stretch of
      polls that ends now. */
  lemma {:induction false} CounterIsBestSuffix(params: Params, config: PortConfig, envs: seq<Env>)
    requires Times(FailureLost, params, config, envs) == 0
    ensures BestSuffix(History(params, config, envs), After(params, config, envs).reset.errorTestCount)
    decreases |envs|
  {
    hide Tick, BestSuffix, HistoryStep, Times, Occurs;
    if |envs| == 0 {
      EmptyHistory();
    } else {
      var front, p, env := LastTurn(params, config, envs);
      assert Times(FailureLost, params, config, envs) >= Times(FailureLost, params, config, front);
      CounterIsBestSuffix(params, config, front);
      CounterStep(params, p, env, History(params, config, front));
    }
  }

  ghost predicate AlwaysBestSuffix(params: Params, config: PortConfig, envs: seq<Env>) {
    forall i :: 0 <= i <= |envs| ==>
      BestSuffix(History(params, config, envs[..i]), After(params, config, envs[..i]).reset.errorTestCount)
  }

  /** A failure that is lost leaves the counter at zero, below the excess of failures. */
  lemma LossBreaksBestSuffix(params: Params, p: Port, env: Env, h: seq<int>)
    requires BestSuffix(h, p.reset.errorTestCount) && Occurs(FailureLost, params, p, env)
    ensures !BestSuffix(HistoryStep(h, params, p, env), Tick(params, p, env).reset.errorTestCount)
  {
    hide Tick, Seen, BestSuffix;
    SeenChanges(p, env);
    TickAfterRearm(params, p, env);
    BestSuffixStep(h, 1, 255);
    BestSuffixIsUnique(h + [1], 256, 0);
  }

  lemma BestSuffixIsUnique(verdicts: seq<int>, best: int, other: int)
    requires BestSuffix(verdicts, best) && best != other
    ensures !BestSuffix(verdicts, other)
  {
  }

  /** That condition is exact: the counter agrees with the excess of failures at every point of a
      run iff no failure is lost on it. */
  lemma {:induction false} CounterIsBestSuffixIff(params: Params, config: PortConfig, envs: seq<Env>)
    ensures AlwaysBestSuffix(params, config, envs) <==> Times(FailureLost, params, config, envs) == 0
    decreases |envs|
  {
    hide Tick, BestSuffix, HistoryStep, Times, Occurs, After;
    if |envs| == 0 {
      AtBoot(params, config, envs);
      CounterIsBestSuffix(params, config, envs);
      assert envs[..0] == envs;
    } else {
      var front, p, env := LastTurn(params, config, envs);
      var h := History(params, config, front);
      CounterIsBestSuffixIff(params, config, front);
      assert forall i :: 0 <= i <= |front| ==> envs[..i] == front[..i];
      assert envs[..|envs|] == envs && front[..|front|] == front == envs[..|envs| - 1];
      assert AlwaysBestSuffix(params, config, envs) <==>
        AlwaysBestSuffix(params, config, front)
        && BestSuffix(HistoryStep(h, params, p, env), Tick(params, p, env).reset.errorTestCount);
      if AlwaysBestSuffix(params, config, front) {
        assert BestSuffix(h, p.reset.errorTestCount);
        if Occurs(FailureLost, params, p, env) {
          LossBreaksBestSuffix(params, p, env, h);
        } else {
          CounterStep(params, p, env, h);
        }
      }
    }
  }

  /** Some stretch of polls that ends with the last verdict has at least `testNum` more failures
      than passes. */
  ghost predicate Tripped(verdicts: seq<int>, testNum: nat) {
    exists k :: 0 <= k < |verdicts| && Score(verdicts[k..]) >= testNum
  }

  /** What a reboot should begin on: a failing poll in REGULAR_STATE that completes a stretch with
      `test_num` more failures than passes. */
  ghost predicate RebootDue(params: Params, config: PortConfig, envs: seq<Env>, env: Env) {
    var p := After(params, config, envs);
    var verdict := Verdict(Seen(p, env).reset.errorCode);
    p.reset.state == RegularState && verdict == 1
    && Tripped(History(params, config, envs) + [verdict], params.testNum)
  }

  /** As long as no failure was lost before, REBOOT_STATE is entered on a turn iff a reboot is due -
      unless this very turn loses a failure and `test_num` is not zero, and then never. */
  lemma RebootExactlyWhenTripped(params: Params, config: PortConfig, envs: seq<Env>, env: Env)
    requires Times(FailureLost, params, config, envs) == 0
    requires After(params, config, envs).reset.state != RebootState
    ensures (After(params, config, envs + [env]).reset.state == RebootState
             <==> RebootDue(params, config, envs, env))
       <==> !(Occurs(FailureLost, params, After(params, config, envs), env) && params.testNum > 0)
  {
    hide Tick, BestSuffix, Tripped, Times, Seen;
    var p := After(params, config, envs);
    assert (envs + [env])[..|envs|] == envs;
    SeenChanges(p, env);
    CounterIsBestSuffix(params, config, envs);
    TripStep(params, p, env);
    TripCount(History(params, config, envs), p.reset.errorTestCount, params.testNum);
  }

  lemma TripCount(h: seq<int>, count: nat, testNum: nat)
    requires BestSuffix(h, count)
    ensures Tripped(h + [1], testNum) <==> count + 1 >= testNum
  {
    forall k | 0 <= k <= |h| ensures Score((h + [1])[k..]) == Score(h[k..]) + 1 {
      ScoreSnoc(h, 1, k);
    }
    var k :| 0 <= k <= |h| && Score(h[k..]) == count;
    assert Score((h + [1])[k..]) == count + 1;
  }

  lemma TripStep(params: Params, p: Port, env: Env)
    requires p.reset.state != RebootState
    ensures Tick(params, p, env).reset.state == RebootState
            <==> p.reset.state == RegularState && Verdict(Seen(p, env).reset.errorCode) == 1
                 && Wrap8(p.reset.errorTestCount + 1) >= params.testNum
  {
    hide Tick, Seen;
    SeenChanges(p, env);
    TickAfterRearm(params, p, env);
  }

  // ---------- how far the counter can get ----------

  /** The failing polls that start a reboot from zero. */
  function Patience(testNum: uint8): nat {
    if testNum == 0 then 1 else testNum
  }

  /** Boot, every re-arm and every revival allow the counter one failure beyond `test_num`; a reboot
      that waits or is under way holds one of them back, and so does REGULAR_STATE. */
  ghost predicate WithinCredit(params: Params, p: Port, credit: nat) {
    p.reset.errorTestCount + One(p.reboot.phase != RebootIdle) + One(p.reset.state == RegularState)
    <= Patience(params.testNum) + credit
  }

  lemma CreditStep(params: Params, config: PortConfig, p: Port, env: Env, credit: nat)
    requires Consistent(params, config, p) && WithinCredit(params, p, credit) && credit >= 1
    ensures WithinCredit(params, Tick(params, p, env), credit + One(Occurs(Rearmed, params, p, env))
                                                              + One(Occurs(Revived, params, p, env)))
  {
    hide Tick, Seen;
    SeenChanges(p, env);
    TickAfterRearm(params, p, env);
  }

  /** On every run the counter exceeds `test_num` by at most one, plus one for each re-arm and each
      revival (for a `test_num` of 0, by one more). */
  lemma {:induction false} CounterIsBounded(params: Params, config: PortConfig, envs: seq<Env>)
    ensures WithinCredit(params, After(params, config, envs),
                         1 + Times(Rearmed, params, config, envs) + Times(Revived, params, config, envs))
    decreases |envs|
  {
    hide Tick, WithinCredit, Times, Occurs, Consistent, After;
    if |envs| == 0 {
      AtBoot(params, config, envs);
      assert WithinCredit(params, Boot(config), 1) by { BootWithinCredit(params, config); }
    } else {
      var front, p, env := LastTurn(params, config, envs);
      CounterIsBounded(params, config, front);
      FlagsAgreeWithState(params, config, front);
      CreditStep(params, config, p, env,
                 1 + Times(Rearmed, params, config, front) + Times(Revived, params, config, front));
    }
  }

  lemma BootWithinCredit(params: Params, config: PortConfig)
    ensures WithinCredit(params, Boot(config), 1)
  {
  }

  /** So no failure is lost on a run with few enough re-arms and revivals. */
  lemma {:induction false} FewRequestsLoseNoFailure(params: Params, config: PortConfig, envs: seq<Env>)
    requires Patience(params.testNum) + Times(Rearmed, params, config, envs)
             + Times(Revived, params, config, envs) <= 254
    ensures Times(FailureLost, params, config, envs) == 0
    decreases |envs|
  {
    hide Tick, Times, Patience, After, Consistent;
    if |envs| == 0 {
      AtBoot(params, config, envs);
    } else {
      var front, p, env := LastTurn(params, config, envs);
      assert Times(Rearmed, params, config, front) <= Times(Rearmed, params, config, envs);
      assert Times(Revived, params, config, front) <= Times(Revived, params, config, envs);
      FewRequestsLoseNoFailure(params, config, front);
      CounterIsBounded(params, config, front);
      if Occurs(FailureLost, params, p, env) {
        LossNeedsRegular(params, p, env);
      }
    }
  }

  lemma LossNeedsRegular(params: Params, p: Port, env: Env)
    requires Occurs(FailureLost, params, p, env)
    ensures p.reset.state == RegularState && p.reset.errorTestCount == 255
  {
    hide Seen;
    SeenChanges(p, env);
  }
}
