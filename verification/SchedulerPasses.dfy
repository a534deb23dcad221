/** The engine under a scheduler that runs again and again, with anything else in between. */
module SchedulerPasses {
  import opened Wrappers
  import opened Calendar
  import opened Frequency
  import opened Horizons
  import opened OrderStatuses
  import opened Shop
  import opened SubscriptionTables
  import opened SubscriptionSteps
  import opened SubscriptionInvariant
  import opened SubscriptionRuns
  import opened SchedulerRuns

  lemma CreateKeepsDates(s: State, op: Op, k: SubId)
    requires op.CreateOp? && k < |s.subs|
    ensures DatesOf(Step(s, op).events, k) == DatesOf(s.events, k)
  {
    if op.id in op.catalog {
      var inserted := InsertSubscription(s, op.user, op.id, op.catalog[op.id], op.cadence, op.address, op.today);
      var added := inserted.events[|s.events|..];
      assert inserted.events == s.events + added;
      DatesOfAppend(s.events, added, |s.subs|, EventDates(op.today, op.cadence), k);
    }
  }

  lemma OtherStepsAddNoEvents(s: State, op: Op)
    requires Inv(s) && Legal(s, op) && !op.ExtendOp? && !op.CreateOp?
    ensures |Step(s, op).events| == |s.events|
  {
    if op.ProcessOp? {
      DueRowsMaterialize(s, op.today, op.due);
      ProcessFrame(s, op.due);
    }
  }

  lemma OtherStepsKeepDates(s: State, op: Op, k: SubId)
    requires Inv(s) && Legal(s, op) && !op.ExtendOp? && k < |s.subs|
    ensures DatesOf(Step(s, op).events, k) == DatesOf(s.events, k)
  {
    if op.CreateOp? {
      CreateKeepsDates(s, op, k);
    } else {
      StepEvolves(s, op);
      OtherStepsAddNoEvents(s, op);
      SameRowsSameDates(s.events, Step(s, op).events, k);
    }
  }

  /** One pass of the extension job on `today`, after any other operations. */
  datatype Pass = Pass(ops: seq<Op>, today: Date, rows: seq<(SubId, Date)>, catalog: Catalog, provider: Option<Provider>)

  function RunPass(s: State, pass: Pass): State {
    ExtendRows(Run(s, pass.ops), pass.rows, pass.catalog, pass.provider)
  }

  function RunPasses(s: State, passes: seq<Pass>): State
    decreases |passes|
  {
    if passes == [] then s else RunPass(RunPasses(s, passes[..|passes| - 1]), passes[|passes| - 1])
  }

  function Days(passes: seq<Pass>): (days: seq<Date>)
    ensures |days| == |passes|
  {
    seq(|passes|, i requires 0 <= i < |passes| => passes[i].today)
  }

  /** The pass is legal from `s`, and finds `k` active with its product still sold. */
  ghost predicate CanPass(s: State, k: SubId, pass: Pass) {
    && LegalRun(s, pass.ops)
    && (forall i :: 0 <= i < |pass.ops| ==> !pass.ops[i].ExtendOp?)
    && var m := Run(s, pass.ops);
       && k < |m.subs| && m.subs[k].status.Active? && ExtensionProduct(m, k, pass.catalog).Some?
       && IsExtensionQuery(m, pass.today, pass.rows)
  }

  ghost predicate KeptUp(s: State, k: SubId, passes: seq<Pass>)
    decreases |passes|
  {
    passes == [] ||
    var n := |passes| - 1;
    KeptUp(s, k, passes[..n]) && CanPass(RunPasses(s, passes[..n]), k, passes[n])
  }

  lemma {:induction false} OtherRunsKeepDates(s: State, ops: seq<Op>, k: SubId)
    requires Inv(s) && LegalRun(s, ops) && k < |s.subs|
    requires forall i :: 0 <= i < |ops| ==> !ops[i].ExtendOp?
    ensures DatesOf(Run(s, ops).events, k) == DatesOf(s.events, k)
    ensures k < |Run(s, ops).subs|
    ensures Run(s, ops).subs[k].frequency == s.subs[k].frequency
    decreases |ops|
  {
    RunEvolves(s, ops);
    if ops != [] {
      var n := |ops| - 1;
      OtherRunsKeepDates(s, ops[..n], k);
      RunKeepsInv(s, ops[..n]);
      OtherStepsKeepDates(Run(s, ops[..n]), ops[n], k);
    }
  }

  /** What one pass does to the last date, whatever other operations came before it. */
  lemma OnePass(s: State, k: SubId, pass: Pass)
    requires Inv(s) && k < |s.subs| && CanPass(s, k, pass)
    ensures MaxDate(s.events, k).Some?
    ensures var r := RunPass(s, pass);
            && Inv(r) && k < |r.subs| && r.subs[k].frequency == s.subs[k].frequency
            && MaxDate(r.events, k) == Some(AfterRun(MaxDate(s.events, k).value, pass.today, s.subs[k].frequency))
  {
    var m := Run(s, pass.ops);
    RunKeepsInv(s, pass.ops);
    OtherRunsKeepDates(s, pass.ops, k);
    DatesIncrease(s, k);
    DatesIncrease(m, k);
    ExtensionFollowsSchedule(m, pass.today, pass.rows, pass.catalog, pass.provider, k, Last(DatesOf(m.events, k)));
    StepKeepsInv(m, ExtendOp(pass.today, pass.rows, pass.catalog, pass.provider));
  }

  /** A state that `k` has reached with its cadence, its last date being `last`. */
  ghost predicate At(s: State, k: SubId, f: Cadence, last: Date) {
    Inv(s) && k < |s.subs| && s.subs[k].frequency == f && MaxDate(s.events, k) == Some(last)
  }

  lemma NextPass(s: State, k: SubId, f: Cadence, last: Date, pass: Pass)
    requires At(s, k, f, last) && CanPass(s, k, pass)
    ensures At(RunPass(s, pass), k, f, AfterRun(last, pass.today, f))
  {
    OnePass(s, k, pass);
  }

  lemma LastPass(s: State, k: SubId, passes: seq<Pass>)
    requires passes != [] && KeptUp(s, k, passes)
    ensures var n := |passes| - 1;
            && KeptUp(s, k, passes[..n]) && CanPass(RunPasses(s, passes[..n]), k, passes[n])
            && RunPasses(s, passes) == RunPass(RunPasses(s, passes[..n]), passes[n])
  {
  }

  lemma LastDay(f: Cadence, last: Date, passes: seq<Pass>)
    requires passes != []
    ensures var n := |passes| - 1;
            AfterPasses(last, f, Days(passes)) == AfterRun(AfterPasses(last, f, Days(passes[..n])), passes[n].today, f)
  {
    assert Days(passes)[..|passes| - 1] == Days(passes[..|passes| - 1]);
  }

  /** The engine follows the one-subscription schedule pass by pass, whatever happens in between. */
  lemma {:induction false} PassesFollowSchedule(s: State, k: SubId, f: Cadence, last: Date, passes: seq<Pass>)
    requires At(s, k, f, last) && KeptUp(s, k, passes)
    ensures At(RunPasses(s, passes), k, f, AfterPasses(last, f, Days(passes)))
    decreases |passes|
  {
    if passes == [] {
      assert Days(passes) == [];
    } else {
      var n := |passes| - 1;
      LastPass(s, k, passes);
      PassesFollowSchedule(s, k, f, last, passes[..n]);
      NextPass(RunPasses(s, passes[..n]), k, f, AfterPasses(last, f, Days(passes[..n])), passes[n]);
      LastDay(f, last, passes);
    }
  }

  /**
    So a subscription kept active, with its product sold, is scheduled more than 60 days ahead after
    every pass, if the first pass is less than 24 days late and no two are more than 84 days apart.
   */
  lemma AlwaysAhead(s: State, k: SubId, last: Date, passes: seq<Pass>)
    requires Inv(s) && k < |s.subs| && passes != [] && KeptUp(s, k, passes)
    requires MaxDate(s.events, k) == Some(last) && OftenEnough(last, Days(passes))
    ensures MaxDate(RunPasses(s, passes).events, k).Some?
    ensures Ordinal(MaxDate(RunPasses(s, passes).events, k).value) > Ordinal(passes[|passes| - 1].today) + LOOKAHEAD_DAYS
  {
    PassesFollowSchedule(s, k, s.subs[k].frequency, last, passes);
    PassesStayAhead(last, s.subs[k].frequency, Days(passes));
  }

  /** In particular a new one whose daily job starts any time in its first 108 days. */
  lemma NewSubscriptionStaysAhead(s: State, k: SubId, created: Date, delay: nat, passes: seq<Pass>)
    requires Inv(s) && k < |s.subs| && DatesOf(s.events, k) == EventDates(created, s.subs[k].frequency)
    requires delay <= 107 && passes != [] && KeptUp(s, k, passes)
    requires Days(passes) == Daily(AddDays(created, delay), |passes|)
    ensures MaxDate(RunPasses(s, passes).events, k).Some?
    ensures Ordinal(MaxDate(RunPasses(s, passes).events, k).value) > Ordinal(passes[|passes| - 1].today) + LOOKAHEAD_DAYS
  {
    DatesIncrease(s, k);
    DailyIsOftenEnough(created, s.subs[k].frequency, delay, |passes|);
    AlwaysAhead(s, k, Last(EventDates(created, s.subs[k].frequency)), passes);
  }
}
