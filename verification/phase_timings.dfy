/** The automaton that times the phases of one OCR run from the events of the engine. */
module PhaseTimings {
  import opened Wrappers

  datatype Phase = Decode | InitializeEngine | DetectPlayerOrder | Parse

  /** An event and the moment it is observed. */
  datatype Event = Started(phase: Phase, at: nat) | Finished(phase: Phase, at: nat)

  /** The fields of `PhaseTimings`; `elapsed` has an entry for every completed phase. */
  datatype Timings = Timings(active: Option<(Phase, nat)>, elapsed: map<Phase, nat>, invalid: bool)

  const INITIAL := Timings(None, map[], false)

  function Since(started: nat, now: nat): nat { if now > started then now - started else 0 }

  function Next(t: Timings, e: Event): Timings {
    match e
    case Started(p, at) =>
      if t.active.Some? || p in t.elapsed then t.(invalid := true) else t.(active := Some((p, at)))
    case Finished(p, at) =>
      if t.active.None? then t.(invalid := true)
      else if t.active.value.0 != p || p in t.elapsed then t.(active := None, invalid := true)
      else t.(active := None, elapsed := t.elapsed[p := Since(t.active.value.1, at)])
  }

  function After(es: seq<Event>): Timings
    decreases es
  {
    if es == [] then INITIAL else Next(After(es[..|es| - 1]), es[|es| - 1])
  }

  const ALL_PHASES := {Decode, InitializeEngine, DetectPlayerOrder, Parse}

  /** `finish` hands the four durations to the timing constructor, or gives up before it. */
  function Finish(t: Timings): Option<map<Phase, nat>> {
    if t.invalid || t.active.Some? || t.elapsed.Keys != ALL_PHASES then None else Some(t.elapsed)
  }

  // ---------------------------------------------------------------- the language

  /** Starts at even places, each finished by the next event, and no phase started twice. */
  ghost predicate InPairs(es: seq<Event>) {
    && (forall i | 0 <= i < |es| :: es[i].Started? <==> i % 2 == 0)
    && (forall i | 0 <= i && 2 * i + 1 < |es| :: es[2 * i + 1].phase == es[2 * i].phase)
    && DistinctStarts(es)
  }

  ghost predicate DistinctStarts(es: seq<Event>) {
    forall i, j | 0 <= i < j && 2 * j < |es| :: es[2 * i].phase != es[2 * j].phase
  }

  /** The phases that have been finished. */
  ghost function Completed(es: seq<Event>): set<Phase> {
    set i | 0 <= i < |es| / 2 :: es[2 * i].phase
  }

  lemma PrefixInPairs(es: seq<Event>)
    requires es != [] && InPairs(es)
    ensures InPairs(es[..|es| - 1])
  {
  }

  /** Every finished phase has the time between its two events. */
  ghost predicate Measures(es: seq<Event>, elapsed: map<Phase, nat>) {
    forall i | 0 <= i < |es| / 2 ::
      es[2 * i].phase in elapsed && elapsed[es[2 * i].phase] == Since(es[2 * i].at, es[2 * i + 1].at)
  }

  /** The state is valid exactly on the pairs, and then remembers the open phase and the finished ones. */
  ghost predicate Remembers(es: seq<Event>, t: Timings) {
    && (!t.invalid <==> InPairs(es))
    && (!t.invalid ==>
          && t.elapsed.Keys == Completed(es)
          && t.active == (if |es| % 2 == 1 then Some((es[|es| - 1].phase, es[|es| - 1].at)) else None)
          && Measures(es, t.elapsed))
  }

  lemma CompletedOfFront(es: seq<Event>)
    requires es != []
    ensures |es| % 2 == 1 ==> Completed(es) == Completed(es[..|es| - 1])
    ensures |es| % 2 == 0 ==> Completed(es) == Completed(es[..|es| - 1]) + {es[|es| - 2].phase}
  {
    var front := es[..|es| - 1];
    assert forall i | 0 <= i < |front| / 2 :: front[2 * i] == es[2 * i];
    if |es| % 2 == 0 {
      var k := |es| / 2 - 1;
      forall p | p in Completed(es) ensures p in Completed(front) + {es[|es| - 2].phase} {
        var i :| 0 <= i < |es| / 2 && es[2 * i].phase == p;
        if i < k { assert front[2 * i].phase == p; }
      }
      assert es[2 * k].phase in Completed(es);
      forall p | p in Completed(front) ensures p in Completed(es) {
        var i :| 0 <= i < |front| / 2 && front[2 * i].phase == p;
        assert es[2 * i].phase == p;
      }
    } else {
      assert |es| / 2 == |front| / 2;
    }
  }

  lemma {:induction false} AfterRemembers(es: seq<Event>)
    ensures Remembers(es, After(es))
    decreases es
  {
    if es == [] {
    } else {
      var front := es[..|es| - 1];
      AfterRemembers(front);
      CompletedOfFront(es);
      NextRemembers(es, After(front));
    }
  }

  /** One more event keeps the pairs exactly when it is a start of a new phase or the awaited finish. */
  lemma OneMoreEvent(es: seq<Event>)
    requires es != [] && InPairs(es[..|es| - 1])
    ensures var (front, e) := (es[..|es| - 1], es[|es| - 1]);
            InPairs(es) <==> if |es| % 2 == 1 then e.Started? && e.phase !in Completed(front)
                             else e.Finished? && e.phase == es[|es| - 2].phase
  {
    var (front, e, n) := (es[..|es| - 1], es[|es| - 1], |es| - 1);
    assert forall i | 0 <= i < n :: es[i] == front[i];
    if |es| % 2 == 1 && e.Started? && e.phase !in Completed(front) {
      forall i, j | 0 <= i < j && 2 * j < |es| ensures es[2 * i].phase != es[2 * j].phase {
        if 2 * j == n { assert front[2 * i].phase in Completed(front); }
      }
    }
    if |es| % 2 == 1 && InPairs(es) {
      forall i | 0 <= i < |front| / 2 ensures front[2 * i].phase != e.phase {
        assert es[2 * i].phase != es[2 * (n / 2)].phase;
      }
    }
    if |es| % 2 == 0 && InPairs(es) {
      assert es[2 * ((n - 1) / 2) + 1].phase == es[2 * ((n - 1) / 2)].phase;
    }
  }

  lemma MeasuresOneMore(es: seq<Event>, elapsed: map<Phase, nat>)
    requires InPairs(es) && |es| >= 2 && |es| % 2 == 0 && Measures(es[..|es| - 1], elapsed)
    ensures var (s, f) := (es[|es| - 2], es[|es| - 1]);
            Measures(es, elapsed[s.phase := Since(s.at, f.at)])
  {
    var (front, k) := (es[..|es| - 1], |es| / 2 - 1);
    var u := elapsed[es[2 * k].phase := Since(es[2 * k].at, es[2 * k + 1].at)];
    forall i | 0 <= i < |es| / 2
      ensures es[2 * i].phase in u && u[es[2 * i].phase] == Since(es[2 * i].at, es[2 * i + 1].at)
    {
      if i < k {
        assert front[2 * i].phase in elapsed
                 && elapsed[front[2 * i].phase] == Since(front[2 * i].at, front[2 * i + 1].at);
        assert es[2 * i].phase != es[2 * k].phase;
      }
    }
  }

  lemma MeasuresTheSame(es: seq<Event>, elapsed: map<Phase, nat>)
    requires |es| % 2 == 1 && Measures(es[..|es| - 1], elapsed)
    ensures Measures(es, elapsed)
  {
    var front := es[..|es| - 1];
    forall i | 0 <= i < |es| / 2
      ensures es[2 * i].phase in elapsed && elapsed[es[2 * i].phase] == Since(es[2 * i].at, es[2 * i + 1].at)
    {
      assert front[2 * i].phase in elapsed
               && elapsed[front[2 * i].phase] == Since(front[2 * i].at, front[2 * i + 1].at);
    }
  }

  lemma NextInPairs(es: seq<Event>, t: Timings)
    requires es != [] && InPairs(es) && Remembers(es[..|es| - 1], t)
    ensures Remembers(es, Next(t, es[|es| - 1]))
  {
    hide Completed, InPairs, Measures;
    var front := es[..|es| - 1];
    PrefixInPairs(es);
    OneMoreEvent(es);
    CompletedOfFront(es);
    if |es| % 2 == 0 {
      PrefixInPairs(front);
      OneMoreEvent(front);
      CompletedOfFront(front);
      assert front[|front| - 1] == es[|es| - 2];
      MeasuresOneMore(es, t.elapsed);
    } else {
      MeasuresTheSame(es, t.elapsed);
    }
  }

  lemma NextRemembers(es: seq<Event>, t: Timings)
    requires es != [] && Remembers(es[..|es| - 1], t)
    ensures Remembers(es, Next(t, es[|es| - 1]))
  {
    hide InPairs, Completed;
    if InPairs(es) {
      NextInPairs(es, t);
    } else if InPairs(es[..|es| - 1]) {
      OneMoreEvent(es);
    }
  }

  // ---------------------------------------------------------------- acceptance

  ghost predicate HasPair(es: seq<Event>, p: Phase) {
    exists i :: 0 <= i < 4 && 2 * i < |es| && es[2 * i].phase == p
  }

  /** Four adjacent pairs of one start and its finish, one pair per phase, in whatever order. */
  ghost predicate IsRun(es: seq<Event>) {
    && |es| == 8
    && (forall i | 0 <= i < 4 :: es[2 * i].Started? && es[2 * i + 1] == Finished(es[2 * i].phase, es[2 * i + 1].at))
    && (forall p: Phase :: HasPair(es, p))
  }

  /** There are no five different phases. */
  lemma NoFifthPhase(a: Phase, b: Phase, c: Phase, d: Phase, e: Phase)
    ensures a == b || a == c || a == d || a == e || b == c || b == d || b == e || c == d || c == e || d == e
  {
  }

  lemma AtMostFourPairs(es: seq<Event>)
    requires DistinctStarts(es)
    ensures |es| <= 8
  {
    if |es| > 8 {
      NoFifthPhase(es[2 * 0].phase, es[2 * 1].phase, es[2 * 2].phase, es[2 * 3].phase, es[2 * 4].phase);
    }
  }

  lemma IsOneOfThree(es: seq<Event>, p: Phase)
    requires p in Completed(es) && |es| <= 7
    ensures |es| >= 2 && (p == es[0].phase || (|es| >= 4 && p == es[2].phase) || (|es| >= 6 && p == es[4].phase))
  {
    var i :| 0 <= i < |es| / 2 && es[2 * i].phase == p;
    assert i == 0 || i == 1 || i == 2;
  }

  lemma AtLeastFourPairs(es: seq<Event>)
    requires Completed(es) == ALL_PHASES
    ensures |es| >= 8
  {
    if |es| <= 7 {
      hide Completed;
      IsOneOfThree(es, Decode);
      IsOneOfThree(es, InitializeEngine);
      IsOneOfThree(es, DetectPlayerOrder);
      IsOneOfThree(es, Parse);
    }
  }

  lemma EveryPhase(p: Phase)
    ensures p in ALL_PHASES
  {
    match p case Decode => case InitializeEngine => case DetectPlayerOrder => case Parse =>
  }

  /** Four values that cover all phases are distinct. */
  lemma FourDistinct(a: Phase, b: Phase, c: Phase, d: Phase)
    requires Decode in {a, b, c, d} && InitializeEngine in {a, b, c, d} && DetectPlayerOrder in {a, b, c, d}
               && Parse in {a, b, c, d}
    ensures a != b && a != c && a != d && b != c && b != d && c != d
    ensures {a, b, c, d} == ALL_PHASES
  {
    EveryPhase(a);
    EveryPhase(b);
    EveryPhase(c);
    EveryPhase(d);
  }

  lemma PairIsOneOfFour(es: seq<Event>, p: Phase)
    requires |es| == 8 && HasPair(es, p)
    ensures p in {es[0].phase, es[2].phase, es[4].phase, es[6].phase}
  {
  }

  lemma RunHasDistinctPhases(es: seq<Event>)
    requires IsRun(es)
    ensures var (a, b, c, d) := (es[0].phase, es[2].phase, es[4].phase, es[6].phase);
            && a != b && a != c && a != d && b != c && b != d && c != d
            && {a, b, c, d} == ALL_PHASES
  {
    PairIsOneOfFour(es, Decode);
    PairIsOneOfFour(es, InitializeEngine);
    PairIsOneOfFour(es, DetectPlayerOrder);
    PairIsOneOfFour(es, Parse);
    hide HasPair;
    FourDistinct(es[0].phase, es[2].phase, es[4].phase, es[6].phase);
  }

  lemma FourPairsComplete(es: seq<Event>)
    requires |es| == 8
    ensures Completed(es) == {es[0].phase, es[2].phase, es[4].phase, es[6].phase}
  {
    assert es[2 * 0].phase in Completed(es) && es[2 * 1].phase in Completed(es);
    assert es[2 * 2].phase in Completed(es) && es[2 * 3].phase in Completed(es);
  }

  lemma RunIsInPairs(es: seq<Event>)
    requires IsRun(es)
    ensures InPairs(es) && Completed(es) == ALL_PHASES
  {
    RunHasDistinctPhases(es);
    FourPairsComplete(es);
    hide HasPair, Completed;
    assert forall i | 0 <= i < 4 :: es[2 * i + 1].Finished? && es[2 * i + 1].phase == es[2 * i].phase;
  }

  lemma PairsOfAllAreARun(es: seq<Event>)
    requires InPairs(es) && |es| % 2 == 0 && Completed(es) == ALL_PHASES
    ensures IsRun(es)
  {
    AtMostFourPairs(es);
    AtLeastFourPairs(es);
    forall p: Phase ensures HasPair(es, p) {
      EveryPhase(p);
      assert p in Completed(es);
    }
    forall i | 0 <= i < 4 ensures es[2 * i].Started? && es[2 * i + 1] == Finished(es[2 * i].phase, es[2 * i + 1].at) {
      assert es[2 * i].Started? && !es[2 * i + 1].Started?;
    }
  }

  /** `finish` reaches the timing constructor on exactly one language: four adjacent pairs of a start and
  its finish, one per phase, in any order. Every other sequence of events yields no timing at all. */
  lemma FinishAcceptsRuns(es: seq<Event>)
    ensures Finish(After(es)).Some? <==> IsRun(es)
  {
    AfterRemembers(es);
    if IsRun(es) {
      RunIsInPairs(es);
    } else if Finish(After(es)).Some? {
      hide IsRun, InPairs, Completed;
      PairsOfAllAreARun(es);
    }
  }

  /** And then every phase has the time between its own two events. */
  lemma FinishMeasuresThePairs(es: seq<Event>, i: nat)
    requires IsRun(es) && i < 4
    ensures Finish(After(es)).Some? && es[2 * i].phase in Finish(After(es)).value
    ensures Finish(After(es)).value[es[2 * i].phase] == Since(es[2 * i].at, es[2 * i + 1].at)
  {
    hide Next, After;
    AfterRemembers(es);
    FinishAcceptsRuns(es);
    RunIsInPairs(es);
    assert es[2 * i].phase in Completed(es);
  }

  /** A sequence that has gone wrong stays wrong. */
  lemma {:induction false} InvalidStays(es: seq<Event>, more: seq<Event>)
    requires After(es).invalid
    ensures After(es + more).invalid
    decreases more
  {
    if more == [] {
      assert es + more == es;
    } else {
      assert (es + more)[..|es + more| - 1] == es + more[..|more| - 1];
      InvalidStays(es, more[..|more| - 1]);
    }
  }

  // ---------------------------------------------------------------- the object

  class Recorder {
    var active: Option<(Phase, nat)>
    var decode: Option<nat>
    var initialization: Option<nat>
    var playerOrder: Option<nat>
    var parse: Option<nat>
    var invalid: bool

    ghost function View(): Timings
      reads this
    {
      Timings(active, map p | p in ALL_PHASES && Field(p).Some? :: Field(p).value, invalid)
    }

    function Field(p: Phase): Option<nat>
      reads this
    {
      match p
      case Decode => decode
      case InitializeEngine => initialization
      case DetectPlayerOrder => playerOrder
      case Parse => parse
    }

    constructor ()
      ensures View() == INITIAL
    {
      active, invalid := None, false;
      decode, initialization, playerOrder, parse := None, None, None, None;
    }

    method Observe(e: Event)
      modifies this
      ensures View() == Next(old(View()), e)
    {
      match e
      case Started(p, at) => Start(p, at);
      case Finished(p, at) => Stop(p, at);
    }

    method Start(p: Phase, at: nat)
      modifies this`active, this`invalid
      ensures View() == Next(old(View()), Started(p, at))
    {
      if active.Some? || Field(p).Some? {
        invalid := true;
        return;
      }
      active := Some((p, at));
    }

    /** The field of one phase. */
    method Record(p: Phase, elapsed: nat)
      modifies this`decode, this`initialization, this`playerOrder, this`parse
      ensures View().elapsed == old(View()).elapsed[p := elapsed]
    {
      match p
      case Decode => decode := Some(elapsed);
      case InitializeEngine => initialization := Some(elapsed);
      case DetectPlayerOrder => playerOrder := Some(elapsed);
      case Parse => parse := Some(elapsed);
    }

    method Stop(p: Phase, at: nat)
      modifies this
      ensures View() == Next(old(View()), Finished(p, at))
    {
      assert Field(p).Some? <==> p in View().elapsed by { EveryPhase(p); }
      var taken := active;
      active := None;
      assert View().elapsed == old(View()).elapsed;
      if taken.None? || taken.value.0 != p || Field(p).Some? {
        invalid := true;
        assert View().elapsed == old(View()).elapsed;
        return;
      }
      Record(p, Since(taken.value.1, at));
    }

    method Done() returns (timings: Option<map<Phase, nat>>)
      ensures timings == Finish(View())
    {
      if invalid || active.Some? || decode.None? || initialization.None? || playerOrder.None? || parse.None? {
        return None;
      }
      timings := Some(map[Decode := decode.value, InitializeEngine := initialization.value,
                          DetectPlayerOrder := playerOrder.value, Parse := parse.value]);
      assert timings.value == View().elapsed;
    }
  }
}
