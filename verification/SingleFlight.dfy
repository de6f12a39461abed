/** One upstream reading for however many callers want it
    (web/upstream_inflight.go, with the lookup and the keeping around it from
    web/upstream_client.go and web/upstream_cache.go), over every interleaving.

    A step is what happens under one lock, or one action of one fiber. */
module SingleFlight {
  import opened Strings
  import opened Upstream

  type Key = string

  /** How a reading ended: with an answer, with a fault, or by a defect or an
      interruption. */
  datatype Exit = Done(response: Response) | Failed(fault: Fault) | Died

  /** A caller of FetchUpstream, by what it has done so far. */
  datatype Caller =
    | Arrived(key: Key)
    | Missed(key: Key)
    | Holding(key: Key, minted: nat)
    | Leading(key: Key, answer: nat)
    | Awaiting(key: Key, answer: nat)
    | Answered(key: Key, outcome: Exit, source: Source)
    | Gone

  datatype Source = FromStore | FromReading(answer: nat)

  /** A detached reading, by what it has done so far. */
  datatype Stage =
    | Asking
    | Writing(response: Response)
    | Exiting(outcome: Exit)
    | Released(outcome: Exit)
    | Completed(outcome: Exit)

  /** asked is how the asking came out, once it has; cut is what the reading ended
      with instead, when the answer could not be kept or it was interrupted. */
  datatype Reading = Reading(key: Key, asked: Option<Exit>, cut: Option<Exit>, stage: Stage)

  function Begun(key: Key): Reading { Reading(key, None, None, Asking) }

  /** pending and store are the program's own maps; a deferred is a number, and
      minters says which caller made each. A reading is known by the deferred it
      will complete. faithful is true until the store loses or refuses a write. */
  datatype State = State(
    pending: map<Key, nat>,
    answers: map<nat, Exit>,
    minters: seq<nat>,
    callers: map<nat, Caller>,
    readings: map<nat, Reading>,
    store: map<Key, Response>,
    faithful: bool)

  const INIT := State(map[], map[], [], map[], map[], map[], true)

  datatype Claim = Claim(answer: nat, leader: bool)

  /** joinOrStart, under its one lock. */
  function JoinOrStart(pending: map<Key, nat>, key: Key, minted: nat): (map<Key, nat>, Claim)
  {
    if key in pending then (pending, Claim(pending[key], false)) else (pending[key := minted], Claim(minted, true))
  }

  function ForgetKey(pending: map<Key, nat>, key: Key): map<Key, nat> { pending - {key} }

  /** The registry as the program holds it. */
  class InFlightReads {
    var pending: map<Key, nat>

    constructor ()
      ensures pending == map[]
    {
      pending := map[];
    }

    method Join(key: Key, minted: nat) returns (ticket: Claim)
      modifies this
      ensures (pending, ticket) == JoinOrStart(old(pending), key, minted)
    {
      if key in pending {
        return Claim(pending[key], false);
      }
      pending := pending[key := minted];
      ticket := Claim(minted, true);
    }

    method Forget(key: Key)
      modifies this
      ensures pending == ForgetKey(old(pending), key)
    {
      pending := pending - {key};
    }
  }

  /** What a caller of FetchUpstream does next. */
  datatype CallerMove =
    | Arrive(key: Key) | LookupHit | LookupMiss(unreadable: bool) | Mint | TakeClaim | Fork | Resume | Abandon

  /** What a detached reading does next, or has done to it. */
  datatype ReadingMove =
    | Ask(outcome: Exit) | Write(kept: bool) | Unkeepable(fault: Fault) | Interrupt(kept: bool) | Forget | Complete

  datatype Step = ByCaller(c: nat, move: CallerMove) | ByReading(d: nat, work: ReadingMove) | Drop(key: Key)

  predicate CallerEnabled(s: State, c: nat, move: CallerMove)
  {
    match move
    case Arrive(_) => c !in s.callers
    case LookupHit => c in s.callers && s.callers[c].Arrived? && s.callers[c].key in s.store
    case LookupMiss(unreadable) =>
      c in s.callers && s.callers[c].Arrived? && (unreadable || s.callers[c].key !in s.store)
    case Mint => c in s.callers && s.callers[c].Missed?
    case TakeClaim => c in s.callers && s.callers[c].Holding?
    case Fork => c in s.callers && s.callers[c].Leading?
    case Resume => c in s.callers && s.callers[c].Awaiting? && s.callers[c].answer in s.answers
    // The one assumption: a leader is not interrupted between its claim and its fork.
    case Abandon => c in s.callers && !s.callers[c].Leading? && !s.callers[c].Answered?
  }

  predicate ReadingEnabled(s: State, d: nat, work: ReadingMove)
  {
    d in s.readings &&
    match work
    case Ask(_) => s.readings[d].stage.Asking?
    case Write(_) => s.readings[d].stage.Writing?
    case Unkeepable(_) => s.readings[d].stage.Writing?
    case Interrupt(kept) => s.readings[d].stage.Writing? || (s.readings[d].stage.Asking? && !kept)
    case Forget => s.readings[d].stage.Exiting?
    case Complete => s.readings[d].stage.Released? && d !in s.answers
  }

  predicate Enabled(s: State, step: Step)
  {
    match step
    case ByCaller(c, move) => CallerEnabled(s, c, move)
    case ByReading(d, work) => ReadingEnabled(s, d, work)
    case Drop(key) => key in s.store
  }

  function SetCaller(s: State, c: nat, caller: Caller): State { s.(callers := s.callers[c := caller]) }

  function SetStage(s: State, d: nat, stage: Stage): State
    requires d in s.readings
  {
    s.(readings := s.readings[d := s.readings[d].(stage := stage)])
  }

  function CutShort(s: State, d: nat, exit: Exit): State
    requires d in s.readings
  {
    s.(readings := s.readings[d := s.readings[d].(cut := Some(exit), stage := Exiting(exit))])
  }

  function CallerNext(s: State, c: nat, move: CallerMove): State
    requires CallerEnabled(s, c, move)
  {
    match move
    case Arrive(key) => SetCaller(s, c, Arrived(key))
    case LookupHit => SetCaller(s, c, Answered(s.callers[c].key, Done(s.store[s.callers[c].key]), FromStore))
    case LookupMiss(_) => SetCaller(s, c, Missed(s.callers[c].key))
    case Mint => SetCaller(s, c, Holding(s.callers[c].key, |s.minters|)).(minters := s.minters + [c])
    case TakeClaim =>
      var (pending, ticket) := JoinOrStart(s.pending, s.callers[c].key, s.callers[c].minted);
      var caller := if ticket.leader then Leading(s.callers[c].key, ticket.answer)
        else Awaiting(s.callers[c].key, ticket.answer);
      SetCaller(s, c, caller).(pending := pending)
    case Fork =>
      var key, d := s.callers[c].key, s.callers[c].answer;
      SetCaller(s, c, Awaiting(key, d)).(readings := s.readings[d := Begun(key)])
    case Resume => SetCaller(s, c,
      Answered(s.callers[c].key, s.answers[s.callers[c].answer], FromReading(s.callers[c].answer)))
    case Abandon => SetCaller(s, c, Gone)
  }

  function ReadingNext(s: State, d: nat, work: ReadingMove): State
    requires ReadingEnabled(s, d, work)
  {
    var reading := s.readings[d];
    match work
    case Ask(outcome) =>
      var stage := if outcome.Done? && IsSuccessful(outcome.response) then Writing(outcome.response)
        else Exiting(outcome);
      s.(readings := s.readings[d := reading.(asked := Some(outcome), stage := stage)])
    case Write(kept) =>
      Keep(SetStage(s, d, Exiting(Done(reading.stage.response))), reading.key, reading.stage.response, kept)
    case Unkeepable(fault) => CutShort(s, d, Failed(fault))
    case Interrupt(kept) =>
      if kept then Keep(CutShort(s, d, Died), reading.key, reading.stage.response, true) else CutShort(s, d, Died)
    case Forget => SetStage(s, d, Released(reading.stage.outcome)).(pending := ForgetKey(s.pending, reading.key))
    case Complete => SetStage(s, d, Completed(reading.stage.outcome)).(answers := s.answers[d := reading.stage.outcome])
  }

  function Next(s: State, step: Step): State
    requires Enabled(s, step)
  {
    match step
    case ByCaller(c, move) => CallerNext(s, c, move)
    case ByReading(d, work) => ReadingNext(s, d, work)
    case Drop(key) => s.(store := s.store - {key}, faithful := false)
  }

  function Keep(s: State, key: Key, response: Response, kept: bool): State
  {
    if kept then s.(store := s.store[key := response]) else s.(faithful := false)
  }

  /** A run: some steps, each enabled where it is taken. */
  ghost predicate Run(s: State, steps: seq<Step>, t: State)
    decreases |steps|
  {
    if steps == [] then s == t else Enabled(s, steps[0]) && Run(Next(s, steps[0]), steps[1..], t)
  }

  // ---- What every step keeps ----

  /** The caller that made this deferred has claimed the key with it and has yet
      to start the reading. */
  predicate Led(minters: seq<nat>, callers: map<nat, Caller>, key: Key, d: nat)
  {
    d < |minters| && minters[d] in callers && callers[minters[d]] == Leading(key, d)
  }

  predicate Unreleased(stage: Stage) { stage.Asking? || stage.Writing? || stage.Exiting? }

  /** The reading this deferred belongs to has started and not given up its key. */
  predicate Underway(readings: map<nat, Reading>, key: Key, d: nat)
  {
    d in readings && readings[d].key == key && Unreleased(readings[d].stage)
  }

  predicate PendingFine(s: State, key: Key)
    requires key in s.pending
  {
    var d := s.pending[key];
    d < |s.minters| && d !in s.answers && (Led(s.minters, s.callers, key, d) <==> !Underway(s.readings, key, d))
  }

  /** This response was once the answer of a reading of this key. */
  ghost predicate Fetched(readings: map<nat, Reading>, key: Key, response: Response)
  {
    IsSuccessful(response)
    && exists d :: d in readings && readings[d].key == key && readings[d].asked == Some(Done(response))
  }

  ghost predicate NotPending(pending: map<Key, nat>, d: nat) { forall k :: k in pending ==> pending[k] != d }

  ghost predicate CallerFine(s: State, c: nat)
    requires c in s.callers
  {
    match s.callers[c]
    case Holding(_, d) => d < |s.minters| && s.minters[d] == c && d !in s.readings && NotPending(s.pending, d)
    case Leading(key, d) =>
      d < |s.minters| && s.minters[d] == c && d !in s.readings && key in s.pending && s.pending[key] == d
    case Awaiting(key, d) => Led(s.minters, s.callers, key, d) || (d in s.readings && s.readings[d].key == key)
    case Answered(key, outcome, FromReading(d)) =>
      d in s.readings && s.readings[d].key == key && s.readings[d].stage == Completed(outcome)
    case Answered(key, outcome, FromStore) => outcome.Done? && Fetched(s.readings, key, outcome.response)
    case _ => true
  }

  ghost predicate ReadingFine(s: State, d: nat)
    requires d in s.readings
  {
    var reading := s.readings[d];
    && d < |s.minters|
    && (Unreleased(reading.stage) ==> reading.key in s.pending && s.pending[reading.key] == d)
    && (!Unreleased(reading.stage) ==> NotPending(s.pending, d))
    && (reading.stage.Completed? <==> d in s.answers)
    && (reading.stage.Completed? ==> s.answers[d] == reading.stage.outcome)
    && AsAsked(reading)
    && (s.faithful && Fulfilled(reading.stage) ==> reading.key in s.store)
  }

  /** A reading ends as its asking did, unless something cut it short; and once it was
      answered, only a 2xx answer on its way to the store can be. */
  predicate AsAsked(reading: Reading)
  {
    && (reading.stage.Asking? <==> reading.asked.None? && reading.cut.None?)
    && (reading.stage.Writing? ==>
      reading.cut.None? && reading.asked == Some(Done(reading.stage.response)) && IsSuccessful(reading.stage.response))
    && (Ended(reading.stage) ==>
      Some(reading.stage.outcome) == if reading.cut.Some? then reading.cut else reading.asked)
    && (reading.cut.Some? ==> !reading.cut.value.Done?)
    && (reading.cut.Some? && reading.asked.Some? ==>
      reading.asked.value.Done? && IsSuccessful(reading.asked.value.response))
    && (reading.cut.Some? && reading.cut.value.Failed? ==> reading.asked.Some?)
  }

  predicate Fulfilled(stage: Stage)
  {
    Ended(stage) && stage.outcome.Done? && IsSuccessful(stage.outcome.response)
  }

  predicate Ended(stage: Stage) { stage.Exiting? || stage.Released? || stage.Completed? }

  ghost predicate PendingInv(s: State) { forall key :: key in s.pending ==> PendingFine(s, key) }

  ghost predicate CallersInv(s: State) { forall c :: c in s.callers ==> CallerFine(s, c) }

  ghost predicate ReadingsInv(s: State)
  {
    (forall d :: d in s.readings ==> ReadingFine(s, d)) && (forall d :: d in s.answers ==> d in s.readings)
  }

  ghost predicate StoreInv(s: State) { forall key :: key in s.store ==> Fetched(s.readings, key, s.store[key]) }

  ghost predicate Inv(s: State)
  {
    PendingInv(s) && CallersInv(s) && ReadingsInv(s) && StoreInv(s)
  }

  /** Every step keeps the invariant. */
  lemma StepKeepsInv(s: State, step: Step)
    requires Inv(s) && Enabled(s, step)
    ensures Inv(Next(s, step))
  {
    match step
    case ByCaller(c, move) => CallerMoveKeepsInv(s, c, move);
    case ByReading(d, work) => ReadingMoveKeepsInv(s, d, work);
    case Drop(key) => DropStep(s, key);
  }

  lemma CallerMoveKeepsInv(s: State, c: nat, move: CallerMove)
    requires Inv(s) && CallerEnabled(s, c, move)
    ensures Inv(CallerNext(s, c, move))
  {
    match move
    case Mint => MintStep(s, c);
    case TakeClaim => ClaimStep(s, c);
    case Fork => ForkStep(s, c);
    case _ => QuietStep(s, c, move);
  }

  lemma ReadingMoveKeepsInv(s: State, d: nat, work: ReadingMove)
    requires Inv(s) && ReadingEnabled(s, d, work)
    ensures Inv(ReadingNext(s, d, work))
  {
    assert ReadingFine(s, d);
    match work
    case Ask(outcome) => AskAdvances(s, d, outcome); AdvanceKeepsInv(s, ReadingNext(s, d, work), d);
    case Interrupt(kept) => InterruptAdvances(s, d, kept); AdvanceKeepsInv(s, ReadingNext(s, d, work), d);
    case Forget => ForgetStep(s, d);
    case Complete => CompleteStep(s, d);
    case _ => WriteAdvances(s, d, work); AdvanceKeepsInv(s, ReadingNext(s, d, work), d);
  }

  /** The moves that change one caller and nothing shared. */
  lemma QuietStep(s: State, c: nat, move: CallerMove)
    requires Inv(s) && CallerEnabled(s, c, move) && !move.Mint? && !move.TakeClaim? && !move.Fork?
    ensures Inv(CallerNext(s, c, move))
  {
    if move.Resume? { assert CallerFine(s, c) && ReadingFine(s, s.callers[c].answer); }
    CallerStep(s, c, CallerNext(s, c, move).callers[c]);
  }

  /** A caller that holds no claim may move on alone. */
  lemma CallerStep(s: State, c: nat, caller: Caller)
    requires Inv(s) && (c in s.callers ==> !s.callers[c].Leading?) && !caller.Leading?
    requires CallerFine(SetCaller(s, c, caller), c)
    ensures Inv(SetCaller(s, c, caller))
  {
    var t := SetCaller(s, c, caller);
    OthersLed(s, t, c);
    forall key | key in t.pending ensures PendingFine(t, key) { assert PendingFine(s, key); }
    forall a | a in t.callers ensures CallerFine(t, a) { if a != c { assert CallerFine(s, a); } }
    forall d | d in t.readings ensures ReadingFine(t, d) { assert ReadingFine(s, d); }
  }

  /** Who leads does not depend on a caller that neither led nor leads. */
  lemma OthersLed(s: State, t: State, c: nat)
    requires t.minters == s.minters && c in t.callers && t.callers == s.callers[c := t.callers[c]]
    requires (c in s.callers ==> !s.callers[c].Leading?) && !t.callers[c].Leading?
    ensures forall key, d :: Led(t.minters, t.callers, key, d) <==> Led(s.minters, s.callers, key, d)
  {}

  lemma MintStep(s: State, c: nat)
    requires Inv(s) && CallerEnabled(s, c, Mint)
    ensures Inv(CallerNext(s, c, Mint))
  {
    var t := CallerNext(s, c, Mint);
    var n := |s.minters|;
    assert t == s.(callers := s.callers[c := Holding(s.callers[c].key, n)], minters := s.minters + [c]);
    forall d | d in s.readings ensures d < n { assert ReadingFine(s, d); }
    forall key | key in t.pending ensures PendingFine(t, key) && t.pending[key] < n { assert PendingFine(s, key); }
    forall a | a in t.callers ensures CallerFine(t, a) { if a != c { MintCaller(s, t, c, a); } }
    forall d | d in t.readings ensures ReadingFine(t, d) { assert ReadingFine(s, d); }
  }

  lemma MintCaller(s: State, t: State, c: nat, a: nat)
    requires c in s.callers && s.callers[c].Missed? && a in s.callers && a != c && CallersInv(s)
    requires t == s.(callers := s.callers[c := Holding(s.callers[c].key, |s.minters|)], minters := s.minters + [c])
    ensures CallerFine(t, a)
  {
    assert CallerFine(s, a);
  }

  lemma ClaimStep(s: State, c: nat)
    requires Inv(s) && CallerEnabled(s, c, TakeClaim)
    ensures Inv(CallerNext(s, c, TakeClaim))
  {
    var k, e := s.callers[c].key, s.callers[c].minted;
    if k in s.pending {
      assert PendingFine(s, k);
      OthersLed(s, SetCaller(s, c, Awaiting(k, s.pending[k])), c);
      CallerStep(s, c, Awaiting(k, s.pending[k]));
    } else {
      LeadStep(s, c, k, e, s.(pending := s.pending[k := e], callers := s.callers[c := Leading(k, e)]));
    }
  }

  lemma LeadStep(s: State, c: nat, k: Key, e: nat, t: State)
    requires Inv(s) && c in s.callers && s.callers[c] == Holding(k, e) && k !in s.pending
    requires t == s.(pending := s.pending[k := e], callers := s.callers[c := Leading(k, e)])
    ensures Inv(t)
  {
    assert CallerFine(s, c);
    forall key | key in t.pending ensures PendingFine(t, key) { if key != k { assert PendingFine(s, key); } }
    forall a | a in t.callers ensures CallerFine(t, a) { if a != c { LeadCaller(s, c, k, e, t, a); } }
    forall d | d in t.readings ensures ReadingFine(t, d) { LeadReading(s, c, k, e, t, d); }
  }

  lemma LeadCaller(s: State, c: nat, k: Key, e: nat, t: State, a: nat)
    requires c in s.callers && s.callers[c] == Holding(k, e) && k !in s.pending && CallerFine(s, c)
    requires t == s.(pending := s.pending[k := e], callers := s.callers[c := Leading(k, e)])
    requires a in s.callers && a != c && CallerFine(s, a)
    ensures CallerFine(t, a)
  {}

  lemma LeadReading(s: State, c: nat, k: Key, e: nat, t: State, d: nat)
    requires c in s.callers && s.callers[c] == Holding(k, e) && k !in s.pending && CallerFine(s, c)
    requires t == s.(pending := s.pending[k := e], callers := s.callers[c := Leading(k, e)])
    requires d in s.readings && ReadingFine(s, d)
    ensures ReadingFine(t, d)
  {}

  lemma ForkStep(s: State, c: nat)
    requires Inv(s) && CallerEnabled(s, c, Fork)
    ensures Inv(CallerNext(s, c, Fork))
  {
    var t := CallerNext(s, c, Fork);
    var k, e := s.callers[c].key, s.callers[c].answer;
    assert CallerFine(s, c) && PendingFine(s, k) && ReadingsInv(s);
    assert t == s.(readings := s.readings[e := Begun(k)], callers := s.callers[c := Awaiting(k, e)]);
    FetchedGrows(s, t);
    forall key | key in t.pending ensures PendingFine(t, key) { ForkPending(s, c, k, e, t, key); }
    forall a | a in t.callers ensures CallerFine(t, a) {
      assert CallerFine(s, a);
      if a != c { ForkCaller(s, c, k, e, t, a); }
    }
    forall d | d in t.readings ensures ReadingFine(t, d) { if d != e { ForkReading(s, c, k, e, t, d); } }
  }

  lemma ForkPending(s: State, c: nat, k: Key, e: nat, t: State, key: Key)
    requires c in s.callers && s.callers[c] == Leading(k, e) && CallerFine(s, c) && key in s.pending
      && PendingFine(s, key)
    requires t == s.(readings := s.readings[e := Begun(k)], callers := s.callers[c := Awaiting(k, e)])
    ensures PendingFine(t, key)
  {}

  lemma ForkReading(s: State, c: nat, k: Key, e: nat, t: State, d: nat)
    requires t == s.(readings := s.readings[e := Begun(k)], callers := s.callers[c := Awaiting(k, e)])
    requires d in s.readings && d != e && ReadingsInv(s)
    ensures ReadingFine(t, d)
  {
    assert ReadingFine(s, d);
  }

  lemma ForkCaller(s: State, c: nat, k: Key, e: nat, t: State, a: nat)
    requires c in s.callers && s.callers[c] == Leading(k, e) && CallerFine(s, c)
    requires t == s.(readings := s.readings[e := Begun(k)], callers := s.callers[c := Awaiting(k, e)])
    requires a in s.callers && a != c && CallerFine(s, a)
    requires forall key, response :: Fetched(s.readings, key, response) ==> Fetched(t.readings, key, response)
    ensures CallerFine(t, a)
  {}

  predicate StillAsked(before: Reading, after: Reading) { before.asked.Some? ==> after.asked == before.asked }

  /** What was fetched stays fetched. */
  lemma FetchedGrows(s: State, t: State)
    requires forall d :: d in s.readings ==>
      d in t.readings && s.readings[d].key == t.readings[d].key && StillAsked(s.readings[d], t.readings[d])
    ensures forall key, response :: Fetched(s.readings, key, response) ==> Fetched(t.readings, key, response)
  {
    forall key, response | Fetched(s.readings, key, response) ensures Fetched(t.readings, key, response) {
      var d :| d in s.readings && s.readings[d].key == key && s.readings[d].asked == Some(Done(response));
      assert d in t.readings && t.readings[d].key == key && t.readings[d].asked == Some(Done(response));
    }
  }

  /** t differs from s in the reading of d, which stays a reading of its key, and
      perhaps in pending, in the answers and in the store. */
  ghost predicate MovesReading(s: State, t: State, d: nat)
  {
    && d in s.readings && t.callers == s.callers && t.minters == s.minters
    && d in t.readings && t.readings == s.readings[d := t.readings[d]]
    && t.readings[d].key == s.readings[d].key && StillAsked(s.readings[d], t.readings[d])
    && !s.readings[d].stage.Completed?
  }

  lemma CallersUnmoved(s: State, t: State, d: nat)
    requires CallersInv(s) && MovesReading(s, t, d)
    requires t.pending == s.pending
      || (s.readings[d].key in s.pending && s.pending[s.readings[d].key] == d
        && t.pending == s.pending - {s.readings[d].key})
    ensures CallersInv(t)
  {
    FetchedGrows(s, t);
    forall a | a in t.callers ensures CallerFine(t, a) { assert CallerFine(s, a); }
  }

  lemma AdvanceKeepsInv(s: State, t: State, d: nat)
    requires Inv(s) && Advances(s, t, d)
    ensures Inv(t)
  {
    CallersUnmoved(s, t, d);
    KeepsKey(s, t, d);
    StoreKept(s, t, d);
  }

  /** The reading of d goes one stage further without giving up its key, and the
      store gains at most what that reading got. */
  ghost predicate Advances(s: State, t: State, d: nat)
  {
    && MovesReading(s, t, d) && t.pending == s.pending && t.answers == s.answers
    && Unreleased(s.readings[d].stage) && Unreleased(t.readings[d].stage) && ReadingFine(t, d)
    && s.store.Keys <= t.store.Keys && (t.faithful ==> s.faithful)
    && (t.store == s.store || exists r ::
      t.readings[d].asked == Some(Done(r)) && IsSuccessful(r) && t.store == s.store[t.readings[d].key := r])
  }

  lemma AskAdvances(s: State, d: nat, outcome: Exit)
    requires ReadingEnabled(s, d, Ask(outcome)) && ReadingFine(s, d)
    ensures Advances(s, ReadingNext(s, d, Ask(outcome)), d)
  {}

  lemma WriteAdvances(s: State, d: nat, work: ReadingMove)
    requires ReadingEnabled(s, d, work) && (work.Write? || work.Unkeepable?) && ReadingFine(s, d)
    ensures Advances(s, ReadingNext(s, d, work), d)
  {}

  lemma InterruptAdvances(s: State, d: nat, kept: bool)
    requires ReadingEnabled(s, d, Interrupt(kept)) && ReadingFine(s, d)
    ensures Advances(s, ReadingNext(s, d, Interrupt(kept)), d)
  {}

  lemma KeepsKey(s: State, t: State, d: nat)
    requires PendingInv(s) && ReadingsInv(s) && Advances(s, t, d)
    ensures PendingInv(t) && ReadingsInv(t)
  {
    forall key | key in t.pending ensures PendingFine(t, key) { assert PendingFine(s, key); }
    forall e | e in t.readings ensures ReadingFine(t, e) { if e != d { assert ReadingFine(s, e); } }
  }

  lemma StoreKept(s: State, t: State, d: nat)
    requires StoreInv(s) && MovesReading(s, t, d)
    requires t.store == s.store || exists r ::
      t.readings[d].asked == Some(Done(r)) && IsSuccessful(r) && t.store == s.store[t.readings[d].key := r]
    ensures StoreInv(t)
  {
    FetchedGrows(s, t);
  }

  lemma ForgetStep(s: State, d: nat)
    requires Inv(s) && ReadingEnabled(s, d, Forget)
    ensures Inv(ReadingNext(s, d, Forget))
  {
    var t := ReadingNext(s, d, Forget);
    assert ReadingFine(s, d);
    CallersUnmoved(s, t, d);
    OwnKeyOnly(s, d);
    StoreKept(s, t, d);
    ForgetRest(s, t, d);
  }

  lemma ForgetRest(s: State, t: State, d: nat)
    requires PendingInv(s) && ReadingsInv(s) && MovesReading(s, t, d)
    requires s.readings[d].stage.Exiting?
      && t.readings[d] == s.readings[d].(stage := Released(s.readings[d].stage.outcome))
    requires forall key :: key in s.pending && s.pending[key] == d ==> key == s.readings[d].key
    requires t.pending == s.pending - {s.readings[d].key} && t.answers == s.answers && t.store == s.store
      && t.faithful == s.faithful
    ensures PendingInv(t) && ReadingsInv(t)
  {
    assert ReadingFine(s, d);
    forall key | key in t.pending ensures PendingFine(t, key) { assert PendingFine(s, key); }
    forall e | e in t.readings ensures ReadingFine(t, e) { assert ReadingFine(s, e); }
  }

  /** A reading's deferred is pending under its own key and no other. */
  lemma OwnKeyOnly(s: State, d: nat)
    requires PendingInv(s) && CallersInv(s) && d in s.readings
    ensures forall key :: key in s.pending && s.pending[key] == d ==> key == s.readings[d].key
  {
    forall key | key in s.pending && s.pending[key] == d ensures key == s.readings[d].key {
      assert PendingFine(s, key);
      assert d < |s.minters| && s.minters[d] in s.callers ==> CallerFine(s, s.minters[d]);
    }
  }

  lemma CompleteStep(s: State, d: nat)
    requires Inv(s) && ReadingEnabled(s, d, Complete)
    ensures Inv(ReadingNext(s, d, Complete))
  {
    var t := ReadingNext(s, d, Complete);
    assert ReadingFine(s, d);
    CallersUnmoved(s, t, d);
    StoreKept(s, t, d);
    CompleteRest(s, t, d);
  }

  lemma CompleteRest(s: State, t: State, d: nat)
    requires PendingInv(s) && ReadingsInv(s) && MovesReading(s, t, d)
    requires s.readings[d].stage.Released?
      && t.readings[d] == s.readings[d].(stage := Completed(s.readings[d].stage.outcome))
    requires t.answers == s.answers[d := s.readings[d].stage.outcome] && t.pending == s.pending && t.store == s.store
      && t.faithful == s.faithful
    ensures PendingInv(t) && ReadingsInv(t)
  {
    assert ReadingFine(s, d);
    forall key | key in t.pending ensures PendingFine(t, key) { assert PendingFine(s, key); }
    forall e | e in t.readings ensures ReadingFine(t, e) { assert ReadingFine(s, e); }
  }

  lemma DropStep(s: State, dropped: Key)
    requires Inv(s) && Enabled(s, Drop(dropped))
    ensures Inv(Next(s, Drop(dropped)))
  {
    var t := Next(s, Drop(dropped));
    forall key | key in t.pending ensures PendingFine(t, key) { assert PendingFine(s, key); }
    forall a | a in t.callers ensures CallerFine(t, a) { assert CallerFine(s, a); }
    forall e | e in t.readings ensures ReadingFine(t, e) { assert ReadingFine(s, e); }
  }
}
