/** What the single-flight protocol promises, of every state any run reaches. */
module SingleFlightRuns {
  import opened Strings
  import opened Upstream
  import opened SingleFlight

  ghost predicate Reachable(s: State) { exists steps :: Run(INIT, steps, s) }

  lemma {:induction false} RunKeepsInv(s: State, steps: seq<Step>, t: State)
    requires Inv(s) && Run(s, steps, t)
    ensures Inv(t)
    decreases |steps|
  {
    if steps != [] {
      StepKeepsInv(s, steps[0]);
      RunKeepsInv(Next(s, steps[0]), steps[1..], t);
    }
  }

  lemma ReachableInv(s: State)
    requires Reachable(s)
    ensures Inv(s)
  {
    var steps :| Run(INIT, steps, s);
    RunKeepsInv(INIT, steps, s);
  }

  /** Between its claim and its forget, a deferred has its key to itself. */
  ghost predicate Active(s: State, key: Key, d: nat)
  {
    Led(s.minters, s.callers, key, d) || Underway(s.readings, key, d)
  }

  /** Never two at once: at most one claim or reading of a key is active, and it
      is the one callers are sent to. */
  lemma OneReadingPerKey(s: State, key: Key, d: nat, e: nat)
    requires Reachable(s) && Active(s, key, d) && Active(s, key, e)
    ensures d == e && key in s.pending && s.pending[key] == d
  {
    ReachableInv(s);
    assert forall x :: x in s.readings ==> ReadingFine(s, x);
    assert forall c :: c in s.callers ==> CallerFine(s, c);
  }

  /** forgetKey deletes by key, and what it deletes is always the reading's own
      deferred: every other key keeps its entry, and the deferred is nowhere left. */
  lemma ForgetRemovesOwn(s: State, d: nat)
    requires Reachable(s) && ReadingEnabled(s, d, Forget)
    ensures var key := s.readings[d].key;
            && key in s.pending && s.pending[key] == d
            && NotPending(ReadingNext(s, d, Forget).pending, d)
            && (forall k :: k in s.pending && k != key ==>
              k in ReadingNext(s, d, Forget).pending && ReadingNext(s, d, Forget).pending[k] == s.pending[k])
  {
    ReachableInv(s);
    assert ReadingFine(s, d);
    OwnKeyOnly(s, d);
  }

  /** A caller that joined is answered with the outcome of the one reading it
      joined, and that reading was of the caller's own key. */
  lemma JoinedReceives(s: State, c: nat)
    requires Reachable(s) && c in s.callers && s.callers[c].Answered? && s.callers[c].source.FromReading?
    ensures var d := s.callers[c].source.answer;
            d in s.readings && s.readings[d].key == s.callers[c].key
              && s.readings[d].stage == Completed(s.callers[c].outcome)
  {
    ReachableInv(s);
    assert CallerFine(s, c);
  }

  // ---- What the service answered ----

  /** A reading ends with what its service answered: at once, or, when that is a 2xx
      answer, once it has been offered to the store, kept or not. Only an answer
      that cannot be written down, or an interruption, puts something in its place. */
  lemma AnswerEnds(s: State, d: nat, outcome: Exit, kept: bool, fault: Fault)
    requires ReadingEnabled(s, d, Ask(outcome))
    ensures var asked, key := ReadingNext(s, d, Ask(outcome)), s.readings[d].key;
      if outcome.Done? && 200 <= outcome.response.status < 300 then
        && ReadingEnabled(asked, d, Write(kept)) && ReadingEnabled(asked, d, Unkeepable(fault))
        && ReadingNext(asked, d, Write(kept)).readings[d].stage == Exiting(outcome)
        && ReadingNext(asked, d, Write(kept)).store == (if kept then s.store[key := outcome.response] else s.store)
        && ReadingNext(asked, d, Unkeepable(fault)).readings[d].stage == Exiting(Failed(fault))
        && ReadingNext(asked, d, Unkeepable(fault)).store == s.store
      else asked.readings[d].stage == Exiting(outcome) && asked.store == s.store
    ensures ReadingEnabled(s, d, Interrupt(false))
      && ReadingNext(s, d, Interrupt(false)).readings[d].stage == Exiting(Died)
  {}

  ghost predicate Asked(readings: map<nat, Reading>, d: nat, outcome: Exit)
  {
    d in readings && readings[d].asked == Some(outcome)
  }

  ghost predicate Cut(readings: map<nat, Reading>, d: nat, outcome: Exit)
  {
    d in readings && readings[d].cut == Some(outcome)
  }

  /** The reading of d was cut short here, to end so. */
  predicate Cuts(step: Step, d: nat, outcome: Exit)
  {
    step.ByReading? && step.d == d &&
    match outcome
    case Failed(fault) => step.work == Unkeepable(fault)
    case Died => step.work.Interrupt?
    case Done(_) => false
  }

  ghost predicate CutIn(steps: seq<Step>, d: nat, outcome: Exit)
  {
    exists step :: step in steps && Cuts(step, d, outcome)
  }

  lemma StepRecords(s: State, step: Step, d: nat, outcome: Exit)
    requires Inv(s) && Enabled(s, step)
    ensures Asked(Next(s, step).readings, d, outcome) <==>
      Asked(s.readings, d, outcome) || step == ByReading(d, Ask(outcome))
    ensures Cut(Next(s, step).readings, d, outcome) <==> Cut(s.readings, d, outcome) || Cuts(step, d, outcome)
  {
    match step
    case ByCaller(c, move) => CallerRecords(s, c, move, d, outcome);
    case ByReading(e, work) => ReadingRecords(s, e, work, d, outcome);
    case Drop(_) =>
  }

  lemma CallerRecords(s: State, c: nat, move: CallerMove, d: nat, outcome: Exit)
    requires CallersInv(s) && CallerEnabled(s, c, move)
    ensures Asked(CallerNext(s, c, move).readings, d, outcome) <==> Asked(s.readings, d, outcome)
    ensures Cut(CallerNext(s, c, move).readings, d, outcome) <==> Cut(s.readings, d, outcome)
  {
    if move.Fork? { assert CallerFine(s, c); }
  }

  lemma ReadingRecords(s: State, e: nat, work: ReadingMove, d: nat, outcome: Exit)
    requires ReadingsInv(s) && ReadingEnabled(s, e, work)
    ensures var t := ReadingNext(s, e, work).readings;
      && (Asked(t, d, outcome) <==> Asked(s.readings, d, outcome) || (e == d && work == Ask(outcome)))
      && (Cut(t, d, outcome) <==> Cut(s.readings, d, outcome) || Cuts(ByReading(e, work), d, outcome))
  {
    assert ReadingFine(s, e);
    var t := ReadingNext(s, e, work).readings;
    OwnRecords(s, e, work);
    assert t == s.readings[e := t[e]];
  }

  lemma OwnRecords(s: State, e: nat, work: ReadingMove)
    requires ReadingEnabled(s, e, work) && AsAsked(s.readings[e])
    ensures var before, after := s.readings[e], ReadingNext(s, e, work).readings[e];
      && after.asked == (if work.Ask? then Some(work.outcome) else before.asked)
      && (work.Ask? ==> before.asked.None?)
      && after.cut == (match work case Unkeepable(fault) => Some(Failed(fault)) case Interrupt(_) => Some(Died)
                       case _ => before.cut)
      && (work.Unkeepable? || work.Interrupt? ==> before.cut.None?)
      && ReadingNext(s, e, work).readings == s.readings[e := after]
  {}

  /** What a reading records of its asking and its ending is what happened. */
  lemma {:induction false} RunRecords(s: State, steps: seq<Step>, t: State, d: nat, outcome: Exit)
    requires Inv(s) && Run(s, steps, t)
    ensures Asked(t.readings, d, outcome) <==> Asked(s.readings, d, outcome) || ByReading(d, Ask(outcome)) in steps
    ensures Cut(t.readings, d, outcome) <==> Cut(s.readings, d, outcome) || CutIn(steps, d, outcome)
    decreases |steps|
  {
    if steps != [] {
      StepRecords(s, steps[0], d, outcome);
      StepKeepsInv(s, steps[0]);
      RunRecords(Next(s, steps[0]), steps[1..], t, d, outcome);
      CutInMore(steps, d, outcome);
      assert steps == [steps[0]] + steps[1..];
    }
  }

  lemma CutInMore(steps: seq<Step>, d: nat, outcome: Exit)
    requires steps != []
    ensures CutIn(steps, d, outcome) <==> Cuts(steps[0], d, outcome) || CutIn(steps[1..], d, outcome)
  {
    assert steps == [steps[0]] + steps[1..];
    if Cuts(steps[0], d, outcome) { assert steps[0] in steps; }
  }

  /** A caller that joined hears what the service answered the reading it joined,
      unless that reading was cut short in the run, and then what it was cut short
      with. */
  lemma JoinedHears(steps: seq<Step>, s: State, c: nat)
    requires Run(INIT, steps, s) && c in s.callers && s.callers[c].Answered? && s.callers[c].source.FromReading?
    ensures var d, outcome := s.callers[c].source.answer, s.callers[c].outcome;
      && (CutIn(steps, d, outcome) || ByReading(d, Ask(outcome)) in steps)
      && (forall other :: CutIn(steps, d, other) ==> outcome == other)
      && (forall other :: ByReading(d, Ask(other)) in steps && !CutIn(steps, d, outcome) ==> outcome == other)
  {
    var d, outcome := s.callers[c].source.answer, s.callers[c].outcome;
    RunKeepsInv(INIT, steps, s);
    assert CallerFine(s, c) && ReadingFine(s, d);
    RunRecords(INIT, steps, s, d, outcome);
    forall other
      ensures CutIn(steps, d, other) ==> outcome == other
      ensures ByReading(d, Ask(other)) in steps && !CutIn(steps, d, outcome) ==> outcome == other {
      RunRecords(INIT, steps, s, d, other);
    }
  }

  /** What a caller awaits is complete, or exactly one of its leader and its reading
      is still to finish it. */
  ghost predicate Unorphaned(s: State, c: nat)
    requires c in s.callers && s.callers[c].Awaiting?
  {
    var key, d := s.callers[c].key, s.callers[c].answer;
    || (d in s.answers && d in s.readings && s.readings[d].stage == Completed(s.answers[d]))
    || (d !in s.answers && (Led(s.minters, s.callers, key, d) <==> d !in s.readings)
        && (d in s.readings ==> s.readings[d].key == key && !s.readings[d].stage.Completed?))
  }

  /** Exactly one of a leader and a reading is responsible for the key, and it has
      yet to finish. */
  ghost predicate OwnedByOne(s: State, key: Key)
    requires key in s.pending
  {
    && s.pending[key] !in s.answers
    && Led(s.minters, s.callers, key, s.pending[key]) != Underway(s.readings, key, s.pending[key])
  }

  /** No waiter is orphaned and no pending key abandoned. */
  ghost predicate AllServed(s: State)
  {
    && (forall c :: c in s.callers && s.callers[c].Awaiting? ==> Unorphaned(s, c))
    && (forall key :: key in s.pending ==> OwnedByOne(s, key))
  }

  lemma NoOrphan(s: State, c: nat)
    requires Inv(s) && c in s.callers && s.callers[c].Awaiting?
    ensures Unorphaned(s, c)
  {
    var d := s.callers[c].answer;
    assert CallerFine(s, c);
    if d in s.readings { assert ReadingFine(s, d); }
    if Led(s.minters, s.callers, s.callers[c].key, d) { assert CallerFine(s, s.minters[d]); }
  }

  lemma InvServes(s: State)
    requires Inv(s)
    ensures AllServed(s)
  {
    forall c | c in s.callers && s.callers[c].Awaiting? ensures Unorphaned(s, c) { NoOrphan(s, c); }
    forall key | key in s.pending ensures OwnedByOne(s, key) { assert PendingFine(s, key); }
  }

  /** In every reachable state each waiter and each pending key has exactly one party
      still to serve it. */
  lemma ReachableServes(s: State)
    requires Reachable(s)
    ensures AllServed(s)
  {
    ReachableInv(s);
    InvServes(s);
  }

  /** A deferred is completed at most once, by its own reading, and only after
      its key was forgotten; once completed its outcome never changes. */
  lemma CompletedOnce(s: State, step: Step, d: nat)
    requires Reachable(s) && Enabled(s, step)
    ensures d in s.answers ==> d in Next(s, step).answers && Next(s, step).answers[d] == s.answers[d]
    ensures d !in s.answers && d in Next(s, step).answers ==>
      step == ByReading(d, Complete) && NotPending(s.pending, d)
        && Next(s, step).answers[d] == s.readings[d].stage.outcome
  {
    ReachableInv(s);
    match step
    case ByCaller(c, move) => CallerAnswers(s, c, move);
    case ByReading(e, work) => ReadingAnswers(s, e, work);
    case Drop(_) =>
  }

  lemma CallerAnswers(s: State, c: nat, move: CallerMove)
    requires CallerEnabled(s, c, move)
    ensures CallerNext(s, c, move).answers == s.answers
  {}

  lemma ReadingAnswers(s: State, d: nat, work: ReadingMove)
    requires ReadingsInv(s) && ReadingEnabled(s, d, work)
    ensures ReadingNext(s, d, work).answers == if work.Complete? then s.answers[d := s.readings[d].stage.outcome]
      else s.answers
    ensures work.Complete? ==> d !in s.answers && NotPending(s.pending, d)
  {
    assert ReadingFine(s, d);
  }

  // ---- Every waiter can be served ----

  function Rank(s: State, d: nat): nat
  {
    if d !in s.readings then 5
    else
      match s.readings[d].stage
      case Asking => 4 case Writing(_) => 3 case Exiting(_) => 2 case Released(_) => 1 case Completed(_) => 0
  }

  /** Nothing anybody does puts a reading back. */
  lemma RankNeverRises(s: State, step: Step, d: nat)
    requires Inv(s) && Enabled(s, step)
    ensures Rank(Next(s, step), d) <= Rank(s, d)
  {
    match step
    case ByCaller(c, move) => CallerRank(s, c, move, d);
    case ByReading(e, work) => ReadingRank(s, e, work, d);
    case Drop(_) =>
  }

  lemma CallerRank(s: State, c: nat, move: CallerMove, d: nat)
    requires CallersInv(s) && CallerEnabled(s, c, move)
    ensures Rank(CallerNext(s, c, move), d) <= Rank(s, d)
  {
    if move.Fork? { assert CallerFine(s, c); }
  }

  lemma ReadingRank(s: State, e: nat, work: ReadingMove, d: nat)
    requires ReadingEnabled(s, e, work)
    ensures Rank(ReadingNext(s, e, work), d) <= Rank(s, d)
    ensures d == e ==> Rank(ReadingNext(s, e, work), d) < Rank(s, d)
  {
    var t := ReadingNext(s, e, work);
    assert t.readings == s.readings[e := t.readings[e]];
  }

  /** The step the party responsible for a deferred takes next, whatever the
      service turns out to answer. */
  function OwnStep(s: State, d: nat, outcome: Exit): Step
    requires d in s.readings || d < |s.minters|
  {
    if d !in s.readings then ByCaller(s.minters[d], Fork)
    else
      ByReading(d, match s.readings[d].stage
                   case Asking => Ask(outcome) case Writing(_) => Write(true) case Exiting(_) => Forget
                   case Released(_) => Complete case Completed(_) => Complete)
  }

  /** That step is always enabled, always advances the reading, and touches no
      other caller: only the parties to a deferred are needed to complete it. */
  lemma OwnStepAdvances(s: State, c: nat, outcome: Exit)
    requires Inv(s) && c in s.callers && s.callers[c].Awaiting? && s.callers[c].answer !in s.answers
    ensures var d := s.callers[c].answer;
            && (d in s.readings || d < |s.minters|)
            && Enabled(s, OwnStep(s, d, outcome))
            && Rank(Next(s, OwnStep(s, d, outcome)), d) < Rank(s, d)
            && c in Next(s, OwnStep(s, d, outcome)).callers
              && Next(s, OwnStep(s, d, outcome)).callers[c] == s.callers[c]
  {
    var d := s.callers[c].answer;
    assert CallerFine(s, c);
    if d in s.readings {
      assert ReadingFine(s, d);
      ReadingRank(s, d, OwnStep(s, d, outcome).work, d);
    }
  }

  /** A step of the reading that completes a deferred, or of the leader that starts it. */
  predicate OfItsOwn(step: Step, minters: seq<nat>, d: nat)
  {
    || (step.ByReading? && step.d == d)
    || (d < |minters| && step == ByCaller(minters[d], Fork))
  }

  /** From any state of any run, a waiting caller can resume after at most five
      steps, all of them of the leader and the reading it waits for. */
  lemma {:induction false} WaiterCanFinish(s: State, c: nat, outcome: Exit) returns (steps: seq<Step>, t: State)
    requires Inv(s) && c in s.callers && s.callers[c].Awaiting?
    ensures Run(s, steps, t) && |steps| <= 5 && CallerEnabled(t, c, Resume)
    ensures |steps| <= Rank(s, s.callers[c].answer)
    ensures forall i :: 0 <= i < |steps| ==> OfItsOwn(steps[i], s.minters, s.callers[c].answer)
    decreases Rank(s, s.callers[c].answer)
  {
    var d := s.callers[c].answer;
    if d in s.answers {
      return [], s;
    }
    OwnStepAdvances(s, c, outcome);
    var step := OwnStep(s, d, outcome);
    StepKeepsInv(s, step);
    var rest;
    rest, t := WaiterCanFinish(Next(s, step), c, outcome);
    steps := [step] + rest;
    assert steps[1..] == rest;
  }

  // ---- Abandonment ----

  ghost predicate ActsFor(step: Step, gone: set<nat>) { step.ByCaller? && step.c in gone }

  /** The state with these callers gone. */
  function Without(s: State, gone: set<nat>): State
  {
    s.(callers := map c | c in s.callers :: if c in gone then Gone else s.callers[c])
  }

  lemma AbandonedStep(s: State, gone: set<nat>, step: Step)
    requires Enabled(s, step) && !ActsFor(step, gone)
    ensures Enabled(Without(s, gone), step)
    ensures Next(Without(s, gone), step) == Without(Next(s, step), gone)
  {
    if step.ByCaller? { AbandonedCaller(s, gone, step.c, step.move); }
  }

  lemma AbandonedCaller(s: State, gone: set<nat>, c: nat, move: CallerMove)
    requires CallerEnabled(s, c, move) && c !in gone
    ensures CallerEnabled(Without(s, gone), c, move)
    ensures CallerNext(Without(s, gone), c, move) == Without(CallerNext(s, c, move), gone)
  {
    WithoutOther(s, gone, c, CallerNext(s, c, move).callers[c]);
  }

  lemma WithoutOther(s: State, gone: set<nat>, c: nat, caller: Caller)
    requires c !in gone
    ensures Without(s, gone).callers[c := caller] == Without(SetCaller(s, c, caller), gone).callers
  {}

  /** Abandoning any set of callers takes nothing away from the rest: every run
      the others make with them present they also make without them, and it ends
      with the same registry, the same deferreds, the same readings and the same
      store. */
  lemma {:induction false} AbandonedRun(s: State, gone: set<nat>, steps: seq<Step>, t: State)
    requires Run(s, steps, t) && (forall i :: 0 <= i < |steps| ==> !ActsFor(steps[i], gone))
    ensures Run(Without(s, gone), steps, Without(t, gone))
    ensures var u := Without(t, gone);
            u.pending == t.pending && u.answers == t.answers && u.readings == t.readings && u.store == t.store
    decreases |steps|
  {
    if steps != [] {
      AbandonedStep(s, gone, steps[0]);
      assert forall i :: 0 <= i < |steps[1..]| ==> steps[1..][i] == steps[i + 1];
      AbandonedRun(Next(s, steps[0]), gone, steps[1..], t);
    }
  }

  /** A key whose deferred nobody will ever complete. */
  ghost predicate Stranded(s: State, key: Key, d: nat)
  {
    && key in s.pending && s.pending[key] == d && d < |s.minters| && d !in s.readings && d !in s.answers
    && (forall c :: c in s.callers && s.callers[c].Leading? ==> s.callers[c].answer != d && s.callers[c].key != key)
    && (forall c :: c in s.callers && s.callers[c].Holding? ==> s.callers[c].minted != d)
    && (forall e :: e in s.readings && s.readings[e].key == key ==> !Unreleased(s.readings[e].stage))
  }

  /** Leaders do come to stand between claim and fork: a first caller gets there. */
  lemma LeaderArises(key: Key) returns (steps: seq<Step>, s: State)
    ensures Run(INIT, steps, s) && 0 in s.callers && s.callers[0] == Leading(key, 0)
      && Led(s.minters, s.callers, key, 0)
  {
    var a := CallerNext(INIT, 0, Arrive(key));
    var b := CallerNext(a, 0, LookupMiss(false));
    var c := CallerNext(b, 0, Mint);
    s := CallerNext(c, 0, TakeClaim);
    var last := [ByCaller(0, TakeClaim)];
    var two := [ByCaller(0, Mint)] + last;
    var three := [ByCaller(0, LookupMiss(false))] + two;
    steps := [ByCaller(0, Arrive(key))] + three;
    assert steps[1..] == three && three[1..] == two && two[1..] == last && last[1..] == [];
    assert Run(s, [], s) && Run(c, last, s) && Run(b, two, s) && Run(a, three, s);
  }

  /** Why a leader must not be interrupted between its claim and its fork: the
      key it claimed would be stranded. */
  lemma AbandonedLeaderStrands(s: State, key: Key, d: nat)
    requires Reachable(s) && Led(s.minters, s.callers, key, d)
    ensures Stranded(SetCaller(s, s.minters[d], Gone), key, d)
  {
    ReachableInv(s);
    var c := s.minters[d];
    assert CallerFine(s, c) && PendingFine(s, key);
    forall a | a in s.callers && a != c && s.callers[a].Leading?
      ensures s.callers[a].answer != d && s.callers[a].key != key {
      assert CallerFine(s, a);
    }
    forall a | a in s.callers && s.callers[a].Holding? ensures s.callers[a].minted != d { assert CallerFine(s, a); }
    forall e | e in s.readings && s.readings[e].key == key ensures !Unreleased(s.readings[e].stage) {
      assert ReadingFine(s, e);
    }
  }

  /** Interrupting a caller leaves every waiter and every pending key served exactly
      when that caller is not a leader between its claim and its fork. */
  lemma InterruptionIff(s: State, c: nat)
    requires Reachable(s) && c in s.callers
    ensures AllServed(SetCaller(s, c, Gone)) <==> !s.callers[c].Leading?
    ensures CallerEnabled(s, c, Abandon) <==> !s.callers[c].Leading? && !s.callers[c].Answered?
    ensures CallerEnabled(s, c, Abandon) ==> CallerNext(s, c, Abandon) == SetCaller(s, c, Gone)
  {
    ReachableInv(s);
    var t := SetCaller(s, c, Gone);
    if s.callers[c].Leading? {
      var key, d := s.callers[c].key, s.callers[c].answer;
      assert CallerFine(s, c);
      assert Led(s.minters, s.callers, key, d) && PendingFine(s, key);
      assert !OwnedByOne(t, key);
    } else {
      CallerStep(s, c, Gone);
      InvServes(t);
    }
  }

  /** A stranded key stays stranded in every continuation. */
  lemma {:induction false} StrandedForever(s: State, key: Key, d: nat, steps: seq<Step>, t: State)
    requires Stranded(s, key, d) && Run(s, steps, t)
    ensures Stranded(t, key, d)
    decreases |steps|
  {
    if steps != [] {
      StrandedStep(s, key, d, steps[0]);
      StrandedForever(Next(s, steps[0]), key, d, steps[1..], t);
    }
  }

  /** After a leader is interrupted there, in every continuation: whoever claims its
      key joins the reading nobody will make, and whoever has joined it is never
      answered. */
  lemma InterruptedLeaderStrandsAll(s: State, c: nat, steps: seq<Step>, t: State, a: nat)
    requires Reachable(s) && c in s.callers && s.callers[c].Leading?
    requires Run(SetCaller(s, c, Gone), steps, t) && a in t.callers
    ensures var key, d := s.callers[c].key, s.callers[c].answer;
      && (t.callers[a].Holding? && t.callers[a].key == key ==>
           CallerEnabled(t, a, TakeClaim) && CallerNext(t, a, TakeClaim).callers[a] == Awaiting(key, d))
      && (t.callers[a] == Awaiting(key, d) ==> !CallerEnabled(t, a, Resume))
  {
    ReachableInv(s);
    assert CallerFine(s, c);
    var key, d := s.callers[c].key, s.callers[c].answer;
    AbandonedLeaderStrands(s, key, d);
    StrandedForever(SetCaller(s, c, Gone), key, d, steps, t);
  }

  lemma StrandedStep(s: State, key: Key, d: nat, step: Step)
    requires Stranded(s, key, d) && Enabled(s, step)
    ensures Stranded(Next(s, step), key, d)
  {
    match step
    case ByCaller(c, move) => StrandedCaller(s, key, d, c, move);
    case ByReading(e, work) => StrandedReading(s, key, d, e, work);
    case Drop(_) =>
  }

  lemma StrandedCaller(s: State, key: Key, d: nat, c: nat, move: CallerMove)
    requires Stranded(s, key, d) && CallerEnabled(s, c, move)
    ensures Stranded(CallerNext(s, c, move), key, d)
  {}

  lemma StrandedReading(s: State, key: Key, d: nat, e: nat, work: ReadingMove)
    requires Stranded(s, key, d) && ReadingEnabled(s, e, work)
    ensures Stranded(ReadingNext(s, e, work), key, d)
  {
    var t := ReadingNext(s, e, work);
    StrandedBeside(s, t, key, d, e);
  }

  /** Another key's reading moving on leaves a stranded key stranded. */
  lemma StrandedBeside(s: State, t: State, key: Key, d: nat, e: nat)
    requires Stranded(s, key, d) && e in s.readings && e in t.readings
    requires t.callers == s.callers && t.minters == s.minters
    requires t.readings == s.readings[e := t.readings[e]] && t.readings[e].key == s.readings[e].key
    requires t.pending == s.pending || (Unreleased(s.readings[e].stage) && t.pending == s.pending - {s.readings[e].key})
    requires t.answers == s.answers || t.answers.Keys == s.answers.Keys + {e}
    requires Unreleased(t.readings[e].stage) ==> Unreleased(s.readings[e].stage)
    ensures Stranded(t, key, d)
  {}

  // ---- What the store holds ----

  /** Whatever is kept under a key is a 2xx answer that a reading of that very key
      got, and so is whatever a lookup replays. */
  lemma StoreHoldsAnswers(s: State, key: Key)
    requires Reachable(s) && key in s.store
    ensures 200 <= s.store[key].status < 300
    ensures exists d :: d in s.readings && s.readings[d].key == key && s.readings[d].asked == Some(Done(s.store[key]))
  {
    ReachableInv(s);
    assert Fetched(s.readings, key, s.store[key]);
  }

  /** The store kept everything it was given and let go of nothing. */
  ghost predicate LosesNothing(steps: seq<Step>)
  {
    forall step :: step in steps ==> !step.Drop? && (step.ByReading? ==> step.work != Write(false))
  }

  lemma {:induction false} FaithfulRun(s: State, steps: seq<Step>, t: State)
    requires Inv(s) && s.faithful && Run(s, steps, t) && LosesNothing(steps)
    ensures Inv(t) && t.faithful
    decreases |steps|
  {
    if steps != [] {
      var next := Next(s, steps[0]);
      StepKeepsInv(s, steps[0]);
      assert next.faithful by { assert steps[0] in steps; }
      FaithfulRun(next, steps[1..], t);
    }
  }

  /** While the store has kept everything it was given, a lookup made after a
      reading of its key ended with a 2xx answer cannot miss for want of an entry. */
  lemma LookupAfterReading(steps: seq<Step>, s: State, d: nat, c: nat)
    requires Run(INIT, steps, s) && LosesNothing(steps)
    requires d in s.readings && Ended(s.readings[d].stage) && s.readings[d].stage.outcome.Done?
    requires 200 <= s.readings[d].stage.outcome.response.status < 300
    requires c in s.callers && s.callers[c] == Arrived(s.readings[d].key)
    ensures CallerEnabled(s, c, LookupHit) && !CallerEnabled(s, c, LookupMiss(false))
  {
    FaithfulRun(INIT, steps, s);
    assert ReadingFine(s, d);
  }

  /** An entry may be let go of at any time, and the store may fail to be read: then a
      caller goes on to claim a reading, though one of its key has ended already. */
  lemma AskedAgain(s: State, key: Key, c: nat)
    requires key in s.store && c in s.callers && s.callers[c] == Arrived(key)
    ensures Enabled(s, Drop(key)) && CallerEnabled(Next(s, Drop(key)), c, LookupMiss(false))
    ensures CallerNext(Next(s, Drop(key)), c, LookupMiss(false)).callers[c] == Missed(key)
    ensures CallerEnabled(s, c, LookupMiss(true)) && CallerNext(s, c, LookupMiss(true)).callers[c] == Missed(key)
  {}

  /** What was kept is what the next caller to look is answered with. */
  lemma KeptIsReplayed(s: State, d: nat, answer: Response, c: nat)
    requires ReadingEnabled(s, d, Ask(Done(answer))) && 200 <= answer.status < 300
    requires c in s.callers && s.callers[c] == Arrived(s.readings[d].key)
    ensures var asked := ReadingNext(s, d, Ask(Done(answer)));
      && ReadingEnabled(asked, d, Write(true))
      && var t := ReadingNext(asked, d, Write(true));
        && CallerEnabled(t, c, LookupHit)
        && CallerNext(t, c, LookupHit).callers[c] == Answered(s.readings[d].key, Done(answer), FromStore)
  {}
}
