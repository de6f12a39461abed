/** The two bodies of a route (web/route.go) and the instrumenting of its phases
    (web/phase.go). An effect is what interpreting it does: the events it leaves, the
    exit it comes to, and what it makes of the program's state W. */
module RouteBodies {
  import opened Strings

  datatype Exit<+A, +E> = Succeeded(value: A) | Failed(failure: E) | Died(defect: string) | Interrupted

  /** What the program itself does is its own; the rest is instrumentation. */
  datatype Event<+O> =
    | Own(event: O)
    | SpanBegan(name: string)
    | SpanEnded(name: string)
    | PhaseBegan(name: string)
    | PhaseEnded(name: string)

  datatype Ran<+A, +E, +O, +W> = Ran(trace: seq<Event<O>>, exit: Exit<A, E>, world: W)

  /** What a piece of the program's own work does. */
  datatype Did<+A, +E, +O, +W> = Did(trace: seq<O>, exit: Exit<A, E>, world: W)

  datatype Read<+In> = Value(value: In) | Refusal(error: string)

  /** What an endpoint and its handler supply. Decoding may read the request's body;
      describing is calling the handler, which gives the effect Fx that handling then
      runs; encoding is work of its own. Each may leave events, change the state,
      and come to an end by a defect or an interruption. */
  datatype Parts<!W, O, !In, !Fx, !Out, Resp, E> = Parts(
    decode: W -> Did<Read<In>, E, O, W>,
    log: (string, W) -> Did<(), E, O, W>,
    reject: string -> Resp,
    describe: (In, W) -> Did<Fx, E, O, W>,
    handle: (Fx, W) -> Did<Out, E, O, W>,
    encode: (Out, W) -> Did<Read<Resp>, E, O, W>)

  /** The names of the phases, and for a sampler whether it returns a function to
      call when the phase ends. */
  datatype Phases<!W> = Phases(
    decodeSpan: string,
    handleSpan: string,
    encodeSpan: string,
    sampler: Option<(string, W) -> bool>)

  predicate IsQuiet<W>(phases: Phases<W>)
  {
    phases.sampler.None? && phases.decodeSpan == "" && phases.handleSpan == "" && phases.encodeSpan == ""
  }

  function Owned<O>(trace: seq<O>): (r: seq<Event<O>>)
    ensures |r| == |trace| && forall i :: 0 <= i < |r| ==> r[i] == Own(trace[i])
  {
    seq(|trace|, i requires 0 <= i < |trace| => Own(trace[i]))
  }

  // ---- Combinators ----

  /** FlatMap: what follows runs on the value, if there is one. */
  function Sequenced<A, B, E, O, W>(first: Ran<A, E, O, W>, next: (A, W) -> Ran<B, E, O, W>): Ran<B, E, O, W>
  {
    match first.exit
    case Succeeded(value) =>
      var later := next(value, first.world);
      Ran(first.trace + later.trace, later.exit, later.world)
    case Failed(failure) => Ran(first.trace, Failed(failure), first.world)
    case Died(defect) => Ran(first.trace, Died(defect), first.world)
    case Interrupted => Ran(first.trace, Interrupted, first.world)
  }

  function WithSpan<A, E, O, W>(fx: W -> Ran<A, E, O, W>, name: string): W -> Ran<A, E, O, W>
  {
    if name == "" then fx
    else w => var ran := fx(w); ran.(trace := [SpanBegan(name)] + ran.trace + [SpanEnded(name)])
  }

  /** The sampler around the run; its second call, when there is one, is a finalizer
      and happens whatever the exit. */
  function MeasurePhase<A, E, O, W>(
      fx: W -> Ran<A, E, O, W>, name: string, sampler: Option<(string, W) -> bool>): W -> Ran<A, E, O, W>
  {
    if sampler.None? || name == "" then fx
    else w => Measured(fx(w), name, sampler.value(name, w))
  }

  function Measured<A, E, O, W>(ran: Ran<A, E, O, W>, name: string, ends: bool): Ran<A, E, O, W>
  {
    ran.(trace := [PhaseBegan(name)] + ran.trace + if ends then [PhaseEnded(name)] else [])
  }

  function InstrumentPhase<A, E, O, W>(
      fx: W -> Ran<A, E, O, W>, name: string, sampler: Option<(string, W) -> bool>): W -> Ran<A, E, O, W>
  {
    WithSpan(MeasurePhase(fx, name, sampler), name)
  }

  // ---- The bodies ----

  function Lifted<A, E, O, W>(did: Did<A, E, O, W>): Ran<A, E, O, W> { Ran(Owned(did.trace), did.exit, did.world) }

  function Refusing<W, O, In, Fx, Out, Resp, E>(
    parts: Parts<W, O, In, Fx, Out, Resp, E>, error: string, w: W): Ran<Resp, E, O, W>
  {
    Sequenced(Lifted(parts.log(error, w)), (u: (), v: W) => Ran([], Succeeded(parts.reject(error)), v))
  }

  /** The effect that encodeOutput gives once it has done its work: it succeeds, or
      dies of a value that cannot be encoded. */
  function Encoded<Resp, E, O, W>(made: Read<Resp>): W -> Ran<Resp, E, O, W>
  {
    w => Ran([], match made case Value(response) => Succeeded(response) case Refusal(error) => Died(error), w)
  }

  function PlainEncode<W, O, In, Fx, Out, Resp, E>(
    parts: Parts<W, O, In, Fx, Out, Resp, E>, value: Out, w: W): Ran<Resp, E, O, W>
  {
    Sequenced(Lifted(parts.encode(value, w)), (made, v) => Encoded(made)(v))
  }

  function PlainRun<W, O, In, Fx, Out, Resp, E>(
    parts: Parts<W, O, In, Fx, Out, Resp, E>, fx: Fx, w: W): Ran<Resp, E, O, W>
  {
    Sequenced(Lifted(parts.handle(fx, w)), (value, v) => PlainEncode(parts, value, v))
  }

  function PlainHandle<W, O, In, Fx, Out, Resp, E>(
    parts: Parts<W, O, In, Fx, Out, Resp, E>, result: Read<In>, w: W): Ran<Resp, E, O, W>
  {
    match result
    case Refusal(error) => Refusing(parts, error, w)
    case Value(input) => Sequenced(Lifted(parts.describe(input, w)), (fx, v) => PlainRun(parts, fx, v))
  }

  function Plain<W, O, In, Fx, Out, Resp, E>(parts: Parts<W, O, In, Fx, Out, Resp, E>, w: W): Ran<Resp, E, O, W>
  {
    Sequenced(Lifted(parts.decode(w)), (result, v) => PlainHandle(parts, result, v))
  }

  function Decoding<W, O, In, Fx, Out, Resp, E>(
    parts: Parts<W, O, In, Fx, Out, Resp, E>): W -> Ran<Read<In>, E, O, W>
  {
    w => Lifted(parts.decode(w))
  }

  function Handling<W, O, In, Fx, Out, Resp, E>(
    parts: Parts<W, O, In, Fx, Out, Resp, E>, fx: Fx): W -> Ran<Out, E, O, W>
  {
    w => Lifted(parts.handle(fx, w))
  }

  /** The encode phase is opened around the effect that encoding made. */
  function PhasedEncode<W, O, In, Fx, Out, Resp, E>(
    parts: Parts<W, O, In, Fx, Out, Resp, E>, phases: Phases<W>, value: Out, w: W): Ran<Resp, E, O, W>
  {
    Sequenced(Lifted(parts.encode(value, w)),
              (made, v) => InstrumentPhase(Encoded(made), phases.encodeSpan, phases.sampler)(v))
  }

  function PhasedRun<W, O, In, Fx, Out, Resp, E>(
    parts: Parts<W, O, In, Fx, Out, Resp, E>, phases: Phases<W>, fx: Fx, w: W): Ran<Resp, E, O, W>
  {
    Sequenced(InstrumentPhase(Handling(parts, fx), phases.handleSpan, phases.sampler)(w),
              (value, v) => PhasedEncode(parts, phases, value, v))
  }

  /** The handle phase is opened around the effect that the handler described. */
  function PhasedHandle<W, O, In, Fx, Out, Resp, E>(
    parts: Parts<W, O, In, Fx, Out, Resp, E>, phases: Phases<W>, result: Read<In>, w: W): Ran<Resp, E, O, W>
  {
    match result
    case Refusal(error) => Refusing(parts, error, w)
    case Value(input) => Sequenced(Lifted(parts.describe(input, w)), (fx, v) => PhasedRun(parts, phases, fx, v))
  }

  function Phased<W, O, In, Fx, Out, Resp, E>(
    parts: Parts<W, O, In, Fx, Out, Resp, E>, phases: Phases<W>, w: W): Ran<Resp, E, O, W>
  {
    Sequenced(InstrumentPhase(Decoding(parts), phases.decodeSpan, phases.sampler)(w),
              (result, v) => PhasedHandle(parts, phases, result, v))
  }

  /** The body a route is built with. */
  function Body<W, O, In, Fx, Out, Resp, E>(
    parts: Parts<W, O, In, Fx, Out, Resp, E>, phases: Phases<W>, w: W): Ran<Resp, E, O, W>
  {
    if IsQuiet(phases) then Plain(parts, w) else Phased(parts, phases, w)
  }

  // ---- Without the instrumentation ----

  function Erased<O>(trace: seq<Event<O>>): seq<O>
  {
    if trace == [] then [] else (if trace[0].Own? then [trace[0].event] else []) + Erased(trace[1..])
  }

  lemma {:induction false} ErasedConcat<O>(a: seq<Event<O>>, b: seq<Event<O>>)
    ensures Erased(a + b) == Erased(a) + Erased(b)
  {
    if a == [] {
      assert a + b == b;
    } else {
      assert (a + b)[1..] == a[1..] + b;
      ErasedConcat(a[1..], b);
      var first := if a[0].Own? then [a[0].event] else [];
      assert (first + Erased(a[1..])) + Erased(b) == first + (Erased(a[1..]) + Erased(b));
    }
  }

  lemma {:induction false} ErasedOwned<O>(trace: seq<O>)
    ensures Erased(Owned(trace)) == trace
  {
    if trace != [] {
      assert Owned(trace)[1..] == Owned(trace[1..]);
      ErasedOwned(trace[1..]);
    }
  }

  /** The same to the program: its own events, exit and state. */
  ghost predicate SameRun<A, E, O, W>(a: Ran<A, E, O, W>, b: Ran<A, E, O, W>)
  {
    Erased(a.trace) == Erased(b.trace) && a.exit == b.exit && a.world == b.world
  }

  lemma InstrumentErased<A, E, O, W>(fx: W -> Ran<A, E, O, W>, name: string, sampler: Option<(string, W) -> bool>, w: W)
    ensures SameRun(InstrumentPhase(fx, name, sampler)(w), fx(w))
  {
    var ran := fx(w);
    if name != "" {
      var measured := MeasurePhase(fx, name, sampler)(w);
      if sampler.Some? {
        var ends := if sampler.value(name, w) then [PhaseEnded(name)] else [];
        ErasedConcat([PhaseBegan(name)] + ran.trace, ends);
        ErasedConcat([PhaseBegan(name)], ran.trace);
      }
      ErasedConcat([SpanBegan(name)] + measured.trace, [SpanEnded(name)]);
      ErasedConcat([SpanBegan(name)], measured.trace);
    }
  }

  lemma SequencedSame<A, B, E, O, W>(
      a: Ran<A, E, O, W>, b: Ran<A, E, O, W>, f: (A, W) -> Ran<B, E, O, W>, g: (A, W) -> Ran<B, E, O, W>)
    requires SameRun(a, b) && (a.exit.Succeeded? ==> SameRun(f(a.exit.value, a.world), g(a.exit.value, a.world)))
    ensures SameRun(Sequenced(a, f), Sequenced(b, g))
  {
    if a.exit.Succeeded? {
      ErasedConcat(a.trace, f(a.exit.value, a.world).trace);
      ErasedConcat(b.trace, g(a.exit.value, a.world).trace);
    }
  }

  lemma EncodeSame<W, O, In, Fx, Out, Resp, E>(
    parts: Parts<W, O, In, Fx, Out, Resp, E>, phases: Phases<W>, value: Out, w: W)
    ensures SameRun(PhasedEncode(parts, phases, value, w), PlainEncode(parts, value, w))
  {
    var made := Lifted(parts.encode(value, w));
    if made.exit.Succeeded? {
      var fx: W -> Ran<Resp, E, O, W> := Encoded(made.exit.value);
      InstrumentErased(fx, phases.encodeSpan, phases.sampler, made.world);
    }
    SequencedSame(made, made, (result, v) => InstrumentPhase(Encoded(result), phases.encodeSpan, phases.sampler)(v),
                  (result, v) => Encoded(result)(v));
  }

  lemma RunSame<W, O, In, Fx, Out, Resp, E>(
    parts: Parts<W, O, In, Fx, Out, Resp, E>, phases: Phases<W>, fx: Fx, w: W)
    ensures SameRun(PhasedRun(parts, phases, fx, w), PlainRun(parts, fx, w))
  {
    var handling := Handling(parts, fx);
    var plain := handling(w);
    InstrumentErased(handling, phases.handleSpan, phases.sampler, w);
    if plain.exit.Succeeded? { EncodeSame(parts, phases, plain.exit.value, plain.world); }
    SequencedSame(InstrumentPhase(handling, phases.handleSpan, phases.sampler)(w), plain,
                  (value, v) => PhasedEncode(parts, phases, value, v), (value, v) => PlainEncode(parts, value, v));
  }

  lemma HandleSame<W, O, In, Fx, Out, Resp, E>(
    parts: Parts<W, O, In, Fx, Out, Resp, E>, phases: Phases<W>, result: Read<In>, w: W)
    ensures SameRun(PhasedHandle(parts, phases, result, w), PlainHandle(parts, result, w))
  {
    if result.Value? {
      var described := Lifted(parts.describe(result.value, w));
      if described.exit.Succeeded? { RunSame(parts, phases, described.exit.value, described.world); }
      SequencedSame(described, described,
                    (fx, v) => PhasedRun(parts, phases, fx, v), (fx, v) => PlainRun(parts, fx, v));
    }
  }

  /** Plain and phased are the same to the program, for every request, handler,
      codec, naming and sampler, whether they succeed, fail, die or are interrupted. */
  lemma PhasedIsPlain<W, O, In, Fx, Out, Resp, E>(parts: Parts<W, O, In, Fx, Out, Resp, E>, phases: Phases<W>, w: W)
    ensures SameRun(Phased(parts, phases, w), Plain(parts, w))
  {
    var decoding := Decoding(parts);
    var plain := decoding(w);
    InstrumentErased(decoding, phases.decodeSpan, phases.sampler, w);
    if plain.exit.Succeeded? { HandleSame(parts, phases, plain.exit.value, plain.world); }
    SequencedSame(InstrumentPhase(decoding, phases.decodeSpan, phases.sampler)(w), plain,
                  (result, v) => PhasedHandle(parts, phases, result, v), (result, v) => PlainHandle(parts, result, v));
  }

  // ---- The instrumentation itself ----

  /** The events that are not the program's own. */
  function Notes<O>(trace: seq<Event<O>>): seq<Event<O>>
  {
    if trace == [] then [] else (if trace[0].Own? then [] else [trace[0]]) + Notes(trace[1..])
  }

  lemma {:induction false} NotesConcat<O>(a: seq<Event<O>>, b: seq<Event<O>>)
    ensures Notes(a + b) == Notes(a) + Notes(b)
  {
    if a == [] {
      assert a + b == b;
    } else {
      assert (a + b)[1..] == a[1..] + b;
      NotesConcat(a[1..], b);
      var first := if a[0].Own? then [] else [a[0]];
      assert (first + Notes(a[1..])) + Notes(b) == first + (Notes(a[1..]) + Notes(b));
    }
  }

  lemma {:induction false} NotesOwned<O>(trace: seq<O>)
    ensures Notes(Owned(trace)) == []
  {
    if trace != [] {
      assert Owned(trace)[1..] == Owned(trace[1..]);
      NotesOwned(trace[1..]);
    }
  }

  /** What instrumenting a phase leaves around it. */
  function Opening<O>(name: string, sampled: bool): seq<Event<O>>
  {
    if name == "" then [] else [SpanBegan(name)] + if sampled then [PhaseBegan(name)] else []
  }

  function Closing<O>(name: string, ends: bool): seq<Event<O>>
  {
    if name == "" then [] else (if ends then [PhaseEnded(name)] else []) + [SpanEnded(name)]
  }

  predicate Ends<W>(phases: Phases<W>, name: string, w: W) { phases.sampler.Some? && phases.sampler.value(name, w) }

  function Bracket<O, W>(phases: Phases<W>, name: string, w: W): seq<Event<O>>
  {
    Opening(name, phases.sampler.Some?) + Closing(name, Ends(phases, name, w))
  }

  lemma InstrumentTrace<A, E, O, W>(fx: W -> Ran<A, E, O, W>, phases: Phases<W>, name: string, w: W)
    ensures InstrumentPhase(fx, name, phases.sampler)(w).trace ==
            Opening(name, phases.sampler.Some?) + fx(w).trace + Closing(name, Ends(phases, name, w))
  {
  }

  lemma InstrumentNotes<A, E, O, W>(fx: W -> Ran<A, E, O, W>, phases: Phases<W>, name: string, w: W)
    requires Notes(fx(w).trace) == []
    ensures Notes(InstrumentPhase(fx, name, phases.sampler)(w).trace) == Bracket(phases, name, w)
  {
    var opening: seq<Event<O>> := Opening(name, phases.sampler.Some?);
    var closing: seq<Event<O>> := Closing(name, Ends(phases, name, w));
    InstrumentTrace(fx, phases, name, w);
    NotesConcat(opening + fx(w).trace, closing);
    NotesConcat(opening, fx(w).trace);
    NotesAreNotes(opening);
    NotesAreNotes(closing);
  }

  lemma {:induction false} NotesAreNotes<O>(trace: seq<Event<O>>)
    requires forall i :: 0 <= i < |trace| ==> !trace[i].Own?
    ensures Notes(trace) == trace
  {
    if trace != [] { NotesAreNotes(trace[1..]); }
  }

  lemma SequencedNotes<A, B, E, O, W>(first: Ran<A, E, O, W>, next: (A, W) -> Ran<B, E, O, W>)
    ensures Notes(Sequenced(first, next).trace) == Notes(first.trace) +
      (if first.exit.Succeeded? then Notes(next(first.exit.value, first.world).trace) else [])
  {
    if first.exit.Succeeded? { NotesConcat(first.trace, next(first.exit.value, first.world).trace); }
  }

  /** All the encoding comes before its phase: between the opening and the closing
      of the encode phase nothing happens, and encoding that does not come to an
      end of its own has no phase at all. */
  lemma EncodePhaseIsEmpty<W, O, In, Fx, Out, Resp, E>(
    parts: Parts<W, O, In, Fx, Out, Resp, E>, phases: Phases<W>, value: Out, w: W)
    ensures var made := parts.encode(value, w);
      PhasedEncode(parts, phases, value, w).trace == Owned(made.trace) + EncodeBracket(parts, phases, value, w)
  {
    var made := parts.encode(value, w);
    if made.exit.Succeeded? {
      var fx: W -> Ran<Resp, E, O, W> := Encoded(made.exit.value);
      InstrumentTrace(fx, phases, phases.encodeSpan, made.world);
      assert fx(made.world).trace == [];
    }
  }

  /** An instrumented part: its opening, its own events and its closing, in one. */
  function Enclosed<O, W>(phases: Phases<W>, name: string, own: seq<O>, w: W): seq<Event<O>>
  {
    Opening(name, phases.sampler.Some?) + Owned(own) + Closing(name, Ends(phases, name, w))
  }

  lemma SequencedPrefix<A, B, E, O, W>(first: Ran<A, E, O, W>, next: (A, W) -> Ran<B, E, O, W>)
    ensures first.trace <= Sequenced(first, next).trace
  {
  }

  /** Decoding is inside its phase, which is closed also when decoding dies or is
      interrupted. */
  lemma DecodePhaseEncloses<W, O, In, Fx, Out, Resp, E>(
    parts: Parts<W, O, In, Fx, Out, Resp, E>, phases: Phases<W>, w: W)
    ensures Enclosed(phases, phases.decodeSpan, parts.decode(w).trace, w) <= Phased(parts, phases, w).trace
  {
    InstrumentTrace(Decoding(parts), phases, phases.decodeSpan, w);
    SequencedPrefix(InstrumentPhase(Decoding(parts), phases.decodeSpan, phases.sampler)(w),
                    (result, v) => PhasedHandle(parts, phases, result, v));
  }

  /** So is handling, likewise; but what calling the handler does is before it. */
  lemma HandlePhaseEncloses<W, O, In, Fx, Out, Resp, E>(
    parts: Parts<W, O, In, Fx, Out, Resp, E>, phases: Phases<W>, input: In, w: W)
    ensures var described := parts.describe(input, w);
      if !described.exit.Succeeded? then PhasedHandle(parts, phases, Value(input), w).trace == Owned(described.trace)
      else
        var run := PhasedRun(parts, phases, described.exit.value, described.world);
        && PhasedHandle(parts, phases, Value(input), w).trace == Owned(described.trace) + run.trace
        && Enclosed(phases, phases.handleSpan, parts.handle(described.exit.value, described.world).trace,
                    described.world) <= run.trace
  {
    var described := parts.describe(input, w);
    if described.exit.Succeeded? {
      var fx := Handling(parts, described.exit.value);
      InstrumentTrace(fx, phases, phases.handleSpan, described.world);
      SequencedPrefix(InstrumentPhase(fx, phases.handleSpan, phases.sampler)(described.world),
                      (value, v) => PhasedEncode(parts, phases, value, v));
    }
  }

  // Which phases there are: decode always; handle if decoding accepted and the
  // handler described its effect; encode if that effect succeeded and the encoding
  // came to an end of its own. One after the other.

  ghost function EncodeBracket<W, O, In, Fx, Out, Resp, E>(
    parts: Parts<W, O, In, Fx, Out, Resp, E>, phases: Phases<W>, value: Out, w: W): seq<Event<O>>
  {
    var made := parts.encode(value, w);
    if made.exit.Succeeded? then Bracket(phases, phases.encodeSpan, made.world) else []
  }

  ghost function HandleBrackets<W, O, In, Fx, Out, Resp, E>(
    parts: Parts<W, O, In, Fx, Out, Resp, E>, phases: Phases<W>, result: Read<In>, w: W): seq<Event<O>>
  {
    if result.Refusal? then []
    else
      var described := parts.describe(result.value, w);
      if !described.exit.Succeeded? then []
      else
        var handled := parts.handle(described.exit.value, described.world);
        Bracket(phases, phases.handleSpan, described.world) +
        if handled.exit.Succeeded? then EncodeBracket(parts, phases, handled.exit.value, handled.world) else []
  }

  ghost function Expected<W, O, In, Fx, Out, Resp, E>(
    parts: Parts<W, O, In, Fx, Out, Resp, E>, phases: Phases<W>, w: W): seq<Event<O>>
  {
    var decoded := parts.decode(w);
    Bracket(phases, phases.decodeSpan, w) +
    if decoded.exit.Succeeded? then HandleBrackets(parts, phases, decoded.exit.value, decoded.world) else []
  }

  lemma EncodeNotes<W, O, In, Fx, Out, Resp, E>(
    parts: Parts<W, O, In, Fx, Out, Resp, E>, phases: Phases<W>, value: Out, w: W)
    ensures Notes(PhasedEncode(parts, phases, value, w).trace) == EncodeBracket(parts, phases, value, w)
  {
    EncodePhaseIsEmpty(parts, phases, value, w);
    NotesAfterOwned(parts.encode(value, w).trace, EncodeBracket(parts, phases, value, w));
  }

  lemma NotesAfterOwned<O>(own: seq<O>, notes: seq<Event<O>>)
    requires forall i :: 0 <= i < |notes| ==> !notes[i].Own?
    ensures Notes(Owned(own) + notes) == notes
  {
    NotesConcat(Owned(own), notes);
    NotesOwned(own);
    NotesAreNotes(notes);
    assert [] + notes == notes;
  }

  lemma HandleNotes<W, O, In, Fx, Out, Resp, E>(
    parts: Parts<W, O, In, Fx, Out, Resp, E>, phases: Phases<W>, result: Read<In>, w: W)
    ensures Notes(PhasedHandle(parts, phases, result, w).trace) == HandleBrackets(parts, phases, result, w)
  {
    if result.Refusal? {
      RefusingNotes(parts, result.error, w);
    } else {
      var described := parts.describe(result.value, w);
      NotesOwned(described.trace);
      SequencedNotes(Lifted(described), (fx, v) => PhasedRun(parts, phases, fx, v));
      if described.exit.Succeeded? { RunNotes(parts, phases, described.exit.value, described.world); }
    }
  }

  lemma RunNotes<W, O, In, Fx, Out, Resp, E>(
    parts: Parts<W, O, In, Fx, Out, Resp, E>, phases: Phases<W>, fx: Fx, w: W)
    ensures var handled := parts.handle(fx, w);
      Notes(PhasedRun(parts, phases, fx, w).trace) == Bracket(phases, phases.handleSpan, w) +
        (if handled.exit.Succeeded? then EncodeBracket(parts, phases, handled.exit.value, handled.world) else [])
  {
    var handled := parts.handle(fx, w);
    var handling := Handling(parts, fx);
    NotesOwned(handled.trace);
    InstrumentNotes(handling, phases, phases.handleSpan, w);
    InstrumentErased(handling, phases.handleSpan, phases.sampler, w);
    SequencedNotes(InstrumentPhase(handling, phases.handleSpan, phases.sampler)(w),
                   (value, v) => PhasedEncode(parts, phases, value, v));
    if handled.exit.Succeeded? { EncodeNotes(parts, phases, handled.exit.value, handled.world); }
  }

  lemma RefusingNotes<W, O, In, Fx, Out, Resp, E>(parts: Parts<W, O, In, Fx, Out, Resp, E>, error: string, w: W)
    ensures Notes(Refusing(parts, error, w).trace) == []
  {
    var logged := parts.log(error, w);
    NotesOwned(logged.trace);
    assert Owned(logged.trace) + [] == Owned(logged.trace);
  }

  lemma PhasedNotes<W, O, In, Fx, Out, Resp, E>(parts: Parts<W, O, In, Fx, Out, Resp, E>, phases: Phases<W>, w: W)
    ensures Notes(Phased(parts, phases, w).trace) == Expected(parts, phases, w)
  {
    var decoded := parts.decode(w);
    var decoding := Decoding(parts);
    NotesOwned(decoded.trace);
    InstrumentNotes(decoding, phases, phases.decodeSpan, w);
    InstrumentErased(decoding, phases.decodeSpan, phases.sampler, w);
    SequencedNotes(InstrumentPhase(decoding, phases.decodeSpan, phases.sampler)(w),
                   (result, v) => PhasedHandle(parts, phases, result, v));
    if decoded.exit.Succeeded? { HandleNotes(parts, phases, decoded.exit.value, decoded.world); }
  }

  // ---- One phase at a time ----

  /** Which phase is open after the notes, when no two were open at once and none
      was closed that was not open. */
  function OpenAfter<O>(notes: seq<Event<O>>, open: Option<string>): Option<Option<string>>
  {
    if notes == [] then Some(open)
    else
      match notes[0]
      case PhaseBegan(name) => if open.Some? then None else OpenAfter(notes[1..], Some(name))
      case PhaseEnded(name) => if open == Some(name) then OpenAfter(notes[1..], None) else None
      case _ => OpenAfter(notes[1..], open)
  }

  /** Every phase opened is closed, once, before another opens. */
  ghost predicate Tidy<O>(notes: seq<Event<O>>) { OpenAfter(notes, None) == Some(None) }

  lemma {:induction false} OpenAfterConcat<O>(a: seq<Event<O>>, b: seq<Event<O>>, open: Option<string>)
    ensures OpenAfter(a + b, open) ==
      match OpenAfter(a, open) case None => None case Some(now) => OpenAfter(b, now)
  {
    if a == [] {
      assert a + b == b;
    } else {
      assert (a + b)[1..] == a[1..] + b;
      match a[0]
      case PhaseBegan(name) => OpenAfterConcat(a[1..], b, Some(name));
      case PhaseEnded(name) => OpenAfterConcat(a[1..], b, None);
      case _ => OpenAfterConcat(a[1..], b, open);
    }
  }

  /** A phase the sampler is told of but gives no end for stays open. */
  predicate LeftOpen<W>(phases: Phases<W>, name: string, w: W)
  {
    phases.sampler.Some? && name != "" && !phases.sampler.value(name, w)
  }

  /** Notes that cannot close a phase opened before them. */
  ghost predicate ClosesNone<O>(notes: seq<Event<O>>) { forall name :: OpenAfter(notes, Some(name)) != Some(None) }

  lemma OpeningOpens<O>(name: string, sampled: bool, open: Option<string>)
    requires name != ""
    ensures OpenAfter<O>(Opening(name, sampled), open) == if !sampled then Some(open) else if open.Some? then None
      else Some(Some(name))
  {
    var opening: seq<Event<O>> := Opening(name, sampled);
    assert opening[0] == SpanBegan(name);
    if sampled {
      assert opening[1..] == [PhaseBegan(name)] && opening[1..][1..] == [];
      assert OpenAfter(opening, open) == OpenAfter(opening[1..], open);
      assert OpenAfter(opening[1..][1..], Some(name)) == Some(Some(name));
    } else {
      assert opening[1..] == [];
    }
  }

  lemma ClosingCloses<O>(name: string, ends: bool, open: Option<string>)
    requires name != ""
    ensures OpenAfter<O>(Closing(name, ends), open) == if !ends then Some(open)
      else if open == Some(name) then Some(None) else None
  {
    var closing: seq<Event<O>> := Closing(name, ends);
    if ends {
      assert closing[0] == PhaseEnded(name) && closing[1..] == [SpanEnded(name)] && closing[1..][1..] == [];
      assert OpenAfter(closing[1..], None) == Some(None);
    } else {
      assert closing[0] == SpanEnded(name) && closing[1..] == [];
    }
  }

  lemma BracketOpens<O, W>(phases: Phases<W>, name: string, w: W, notes: seq<Event<O>>, open: Option<string>)
    requires notes == Bracket(phases, name, w)
    ensures open.None? ==> OpenAfter(notes, open) == Some(if LeftOpen(phases, name, w) then Some(name) else None)
    ensures open.Some? ==> OpenAfter(notes, open) == if phases.sampler.Some? && name != "" then None else Some(open)
  {
    if name == "" {
      assert notes == [];
    } else {
      var opening: seq<Event<O>> := Opening(name, phases.sampler.Some?);
      var closing: seq<Event<O>> := Closing(name, Ends(phases, name, w));
      OpenAfterConcat(opening, closing, open);
      OpeningOpens<O>(name, phases.sampler.Some?, open);
      ClosingCloses<O>(name, Ends(phases, name, w), if phases.sampler.Some? then Some(name) else open);
    }
  }

  lemma BracketThen<O, W>(phases: Phases<W>, name: string, w: W, rest: seq<Event<O>>)
    requires ClosesNone(rest)
    ensures var notes: seq<Event<O>> := Bracket(phases, name, w);
      ClosesNone(notes + rest) && (Tidy(notes + rest) <==> !LeftOpen(phases, name, w) && Tidy(rest))
  {
    var notes: seq<Event<O>> := Bracket(phases, name, w);
    OpenAfterConcat(notes, rest, None);
    BracketOpens(phases, name, w, notes, None);
    forall other ensures OpenAfter(notes + rest, Some(other)) != Some(None) {
      OpenAfterConcat(notes, rest, Some(other));
      BracketOpens(phases, name, w, notes, Some(other));
    }
  }

  // The phases that open, each with the state it opens in.

  ghost predicate EncodeOpens<W, O, In, Fx, Out, Resp, E>(
    parts: Parts<W, O, In, Fx, Out, Resp, E>, phases: Phases<W>, value: Out, w: W, name: string, at: W)
  {
    var made := parts.encode(value, w);
    made.exit.Succeeded? && name == phases.encodeSpan && at == made.world
  }

  ghost predicate HandleOpens<W, O, In, Fx, Out, Resp, E>(
    parts: Parts<W, O, In, Fx, Out, Resp, E>, phases: Phases<W>, result: Read<In>, w: W, name: string, at: W)
  {
    result.Value? &&
    var described := parts.describe(result.value, w);
    described.exit.Succeeded? &&
    var handled := parts.handle(described.exit.value, described.world);
    || (name == phases.handleSpan && at == described.world)
    || (handled.exit.Succeeded? && EncodeOpens(parts, phases, handled.exit.value, handled.world, name, at))
  }

  ghost predicate Opens<W, O, In, Fx, Out, Resp, E>(
    parts: Parts<W, O, In, Fx, Out, Resp, E>, phases: Phases<W>, w: W, name: string, at: W)
  {
    var decoded := parts.decode(w);
    || (name == phases.decodeSpan && at == w)
    || (decoded.exit.Succeeded? && HandleOpens(parts, phases, decoded.exit.value, decoded.world, name, at))
  }

  lemma EncodeTidy<W(!new), O, In, Fx, Out, Resp, E>(
    parts: Parts<W, O, In, Fx, Out, Resp, E>, phases: Phases<W>, value: Out, w: W)
    ensures var notes := EncodeBracket(parts, phases, value, w);
      ClosesNone(notes) && (Tidy(notes) <==>
        forall name, at :: EncodeOpens(parts, phases, value, w, name, at) ==> !LeftOpen(phases, name, at))
  {
    var made := parts.encode(value, w);
    if made.exit.Succeeded? {
      var none: seq<Event<O>> := [];
      BracketThen(phases, phases.encodeSpan, made.world, none);
      var notes: seq<Event<O>> := Bracket(phases, phases.encodeSpan, made.world);
      assert notes + none == notes;
      assert EncodeOpens(parts, phases, value, w, phases.encodeSpan, made.world);
    }
  }

  lemma HandleTidy<W(!new), O, In, Fx, Out, Resp, E>(
    parts: Parts<W, O, In, Fx, Out, Resp, E>, phases: Phases<W>, result: Read<In>, w: W)
    ensures var notes := HandleBrackets(parts, phases, result, w);
      ClosesNone(notes) && (Tidy(notes) <==>
        forall name, at :: HandleOpens(parts, phases, result, w, name, at) ==> !LeftOpen(phases, name, at))
  {
    if result.Value? {
      var described := parts.describe(result.value, w);
      if described.exit.Succeeded? {
        var handled := parts.handle(described.exit.value, described.world);
        assert HandleOpens(parts, phases, result, w, phases.handleSpan, described.world);
        var rest: seq<Event<O>> := [];
        if handled.exit.Succeeded? {
          EncodeTidy(parts, phases, handled.exit.value, handled.world);
          rest := EncodeBracket(parts, phases, handled.exit.value, handled.world);
          assert forall name, at :: EncodeOpens(parts, phases, handled.exit.value, handled.world, name, at) ==>
            HandleOpens(parts, phases, result, w, name, at);
        }
        BracketThen(phases, phases.handleSpan, described.world, rest);
      }
    }
  }

  /** Phases are opened and closed one at a time exactly when the sampler gives an
      end for each of those that open, however the parts end. */
  lemma PhasesTidyIff<W(!new), O, In, Fx, Out, Resp, E>(
    parts: Parts<W, O, In, Fx, Out, Resp, E>, phases: Phases<W>, w: W)
    ensures Tidy(Notes(Phased(parts, phases, w).trace)) <==>
      forall name, at :: Opens(parts, phases, w, name, at) ==> !LeftOpen(phases, name, at)
  {
    PhasedNotes(parts, phases, w);
    var decoded := parts.decode(w);
    assert Opens(parts, phases, w, phases.decodeSpan, w);
    var rest: seq<Event<O>> := [];
    if decoded.exit.Succeeded? {
      HandleTidy(parts, phases, decoded.exit.value, decoded.world);
      rest := HandleBrackets(parts, phases, decoded.exit.value, decoded.world);
      assert forall name, at :: HandleOpens(parts, phases, decoded.exit.value, decoded.world, name, at) ==>
        Opens(parts, phases, w, name, at);
    }
    BracketThen(phases, phases.decodeSpan, w, rest);
  }

  /** They are not when the sampler gives no end for the decode phase, which always
      opens: whatever the request, that phase stays open. */
  lemma EndlessSamplerUntidy<W(!new), O, In, Fx, Out, Resp, E>(
    parts: Parts<W, O, In, Fx, Out, Resp, E>, phases: Phases<W>, w: W)
    requires phases.decodeSpan != "" && phases.sampler.Some? && !phases.sampler.value(phases.decodeSpan, w)
    ensures !Tidy(Notes(Phased(parts, phases, w).trace))
  {
    PhasesTidyIff(parts, phases, w);
    assert Opens(parts, phases, w, phases.decodeSpan, w);
  }

  /** Whatever naming and sampler a surface chose, a route answers as its plain body. */
  lemma BodyIsPlain<W, O, In, Fx, Out, Resp, E>(parts: Parts<W, O, In, Fx, Out, Resp, E>, phases: Phases<W>, w: W)
    ensures SameRun(Body(parts, phases, w), Plain(parts, w))
    ensures IsQuiet(phases) ==> Notes(Body(parts, phases, w).trace) == []
  {
    PhasedIsPlain(parts, phases, w);
    if IsQuiet(phases) { PlainNotes(parts, w); }
  }

  /** The instrumentation of a route is what its naming and sampler ask for, whichever
      body was chosen: leaving the phases out is only for a surface that asks for
      none. */
  lemma BodyNotes<W, O, In, Fx, Out, Resp, E>(parts: Parts<W, O, In, Fx, Out, Resp, E>, phases: Phases<W>, w: W)
    ensures Notes(Body(parts, phases, w).trace) == Expected(parts, phases, w)
  {
    if IsQuiet(phases) {
      PlainNotes(parts, w);
      assert Expected(parts, phases, w) == [];
    } else {
      PhasedNotes(parts, phases, w);
    }
  }

  lemma PlainNotes<W, O, In, Fx, Out, Resp, E>(parts: Parts<W, O, In, Fx, Out, Resp, E>, w: W)
    ensures Notes(Plain(parts, w).trace) == []
  {
    var decoded := parts.decode(w);
    NotesOwned(decoded.trace);
    SequencedNotes(Lifted(decoded), (result, v) => PlainHandle(parts, result, v));
    if decoded.exit.Succeeded? { PlainHandleNotes(parts, decoded.exit.value, decoded.world); }
  }

  lemma PlainEncodeAnswers<W, O, In, Fx, Out, Resp, E>(
    parts: Parts<W, O, In, Fx, Out, Resp, E>, value: Out, w: W)
    ensures PlainEncode(parts, value, w).trace == Owned(parts.encode(value, w).trace)
    ensures EncodeAnswers(parts, value, w, parts.encode(value, w).trace, PlainEncode(parts, value, w).exit)
  {
    var made := parts.encode(value, w);
    if made.exit.Succeeded? {
      var fx: W -> Ran<Resp, E, O, W> := Encoded(made.exit.value);
      var ran := fx(made.world);
      assert ran.trace == [] && PlainEncode(parts, value, w).exit == ran.exit;
    }
  }

  lemma PlainHandleNotes<W, O, In, Fx, Out, Resp, E>(
    parts: Parts<W, O, In, Fx, Out, Resp, E>, result: Read<In>, w: W)
    ensures Notes(PlainHandle(parts, result, w).trace) == []
  {
    if result.Refusal? {
      RefusingNotes(parts, result.error, w);
    } else {
      var described := parts.describe(result.value, w);
      NotesOwned(described.trace);
      SequencedNotes(Lifted(described), (fx, v) => PlainRun(parts, fx, v));
      if described.exit.Succeeded? {
        var handled := parts.handle(described.exit.value, described.world);
        NotesOwned(handled.trace);
        SequencedNotes(Lifted(handled), (value, v) => PlainEncode(parts, value, v));
        if handled.exit.Succeeded? {
          NotesOwned(parts.encode(handled.exit.value, handled.world).trace);
          PlainEncodeAnswers(parts, handled.exit.value, handled.world);
        }
      }
    }
  }

  // ---- What a route answers ----

  /** The exit of a part that did not succeed is the route's. */
  ghost predicate EndsLike<A, B, E>(part: Exit<A, E>, exit: Exit<B, E>)
  {
    match part
    case Succeeded(_) => false
    case Failed(failure) => exit == Failed(failure)
    case Died(defect) => exit == Died(defect)
    case Interrupted => exit == Interrupted
  }

  ghost predicate EncodeAnswers<W, O, In, Fx, Out, Resp, E>(
    parts: Parts<W, O, In, Fx, Out, Resp, E>, value: Out, w: W, own: seq<O>, exit: Exit<Resp, E>)
  {
    var made := parts.encode(value, w);
    && own == made.trace
    && match made.exit
       case Succeeded(Value(response)) => exit == Succeeded(response)
       case Succeeded(Refusal(error)) => exit == Died(error)
       case _ => EndsLike(made.exit, exit)
  }

  ghost predicate RunAnswers<W, O, In, Fx, Out, Resp, E>(
    parts: Parts<W, O, In, Fx, Out, Resp, E>, fx: Fx, w: W, own: seq<O>, exit: Exit<Resp, E>)
  {
    var handled := parts.handle(fx, w);
    if handled.exit.Succeeded? then
      && handled.trace <= own
      && EncodeAnswers(parts, handled.exit.value, handled.world, own[|handled.trace|..], exit)
    else own == handled.trace && EndsLike(handled.exit, exit)
  }

  /** A refused request is logged and rejected, and never reaches the handler. */
  ghost predicate ResultAnswers<W, O, In, Fx, Out, Resp, E>(
    parts: Parts<W, O, In, Fx, Out, Resp, E>, result: Read<In>, w: W, own: seq<O>, exit: Exit<Resp, E>)
  {
    match result
    case Refusal(error) =>
      var logged := parts.log(error, w);
      && own == logged.trace
      && if logged.exit.Succeeded? then exit == Succeeded(parts.reject(error)) else EndsLike(logged.exit, exit)
    case Value(input) =>
      var described := parts.describe(input, w);
      if described.exit.Succeeded? then
        && described.trace <= own
        && RunAnswers(parts, described.exit.value, described.world, own[|described.trace|..], exit)
      else own == described.trace && EndsLike(described.exit, exit)
  }

  /** What a request is answered with: the program's own events in order, and the
      exit. */
  ghost predicate Answers<W, O, In, Fx, Out, Resp, E>(
    parts: Parts<W, O, In, Fx, Out, Resp, E>, w: W, own: seq<O>, exit: Exit<Resp, E>)
  {
    var decoded := parts.decode(w);
    if decoded.exit.Succeeded? then
      && decoded.trace <= own
      && ResultAnswers(parts, decoded.exit.value, decoded.world, own[|decoded.trace|..], exit)
    else own == decoded.trace && EndsLike(decoded.exit, exit)
  }

  lemma SequencedOwn<A, B, E, O, W>(did: Did<A, E, O, W>, next: (A, W) -> Ran<B, E, O, W>)
    ensures var ran := Sequenced(Lifted(did), next);
      if did.exit.Succeeded? then
        var later := next(did.exit.value, did.world);
        && Erased(ran.trace) == did.trace + Erased(later.trace) && ran.exit == later.exit
        && did.trace <= Erased(ran.trace) && Erased(ran.trace)[|did.trace|..] == Erased(later.trace)
      else Erased(ran.trace) == did.trace && EndsLike(did.exit, ran.exit)
  {
    ErasedOwned(did.trace);
    if did.exit.Succeeded? { ErasedConcat(Owned(did.trace), next(did.exit.value, did.world).trace); }
  }

  lemma PlainAnswers<W, O, In, Fx, Out, Resp, E>(parts: Parts<W, O, In, Fx, Out, Resp, E>, w: W)
    ensures Answers(parts, w, Erased(Plain(parts, w).trace), Plain(parts, w).exit)
  {
    var decoded := parts.decode(w);
    SequencedOwn(decoded, (result, v) => PlainHandle(parts, result, v));
    if decoded.exit.Succeeded? { PlainResultAnswers(parts, decoded.exit.value, decoded.world); }
  }

  lemma PlainResultAnswers<W, O, In, Fx, Out, Resp, E>(
    parts: Parts<W, O, In, Fx, Out, Resp, E>, result: Read<In>, w: W)
    ensures var ran := PlainHandle(parts, result, w); ResultAnswers(parts, result, w, Erased(ran.trace), ran.exit)
  {
    match result
    case Refusal(error) =>
      SequencedOwn(parts.log(error, w), (u: (), v: W) => Ran([], Succeeded(parts.reject(error)), v));
    case Value(input) =>
      var described := parts.describe(input, w);
      SequencedOwn(described, (fx, v) => PlainRun(parts, fx, v));
      if described.exit.Succeeded? { PlainRunAnswers(parts, described.exit.value, described.world); }
  }

  lemma PlainRunAnswers<W, O, In, Fx, Out, Resp, E>(parts: Parts<W, O, In, Fx, Out, Resp, E>, fx: Fx, w: W)
    ensures var ran := PlainRun(parts, fx, w); RunAnswers(parts, fx, w, Erased(ran.trace), ran.exit)
  {
    var handled := parts.handle(fx, w);
    SequencedOwn(handled, (value, v) => PlainEncode(parts, value, v));
    if handled.exit.Succeeded? {
      ErasedOwned(parts.encode(handled.exit.value, handled.world).trace);
      PlainEncodeAnswers(parts, handled.exit.value, handled.world);
    }
  }

  lemma BodyAnswers<W, O, In, Fx, Out, Resp, E>(parts: Parts<W, O, In, Fx, Out, Resp, E>, phases: Phases<W>, w: W)
    ensures Answers(parts, w, Erased(Body(parts, phases, w).trace), Body(parts, phases, w).exit)
  {
    PlainAnswers(parts, w);
    BodyIsPlain(parts, phases, w);
  }
}
