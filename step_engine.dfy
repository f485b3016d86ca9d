/** What the sequencer decides at one step, as functions of the state it
    reads: the MIDI events of a send, the step index derived from the clock,
    the drum hits with the fill and resolution hand-off, and the chord or
    arpeggio notes drawn from the held pitches. */
module StepEngine {
  import opened Electone

  /** Clock pulses per sequencer step (24 per quarter note gives 16th notes). */
  const PulsesPerStep: int := 6
  /** The tick counter restarts at the first step boundary above this value. */
  const TickLimit: int := 24000
  /** Velocity of a drum step whose value is 1. */
  const DefaultHitVelocity: int := 100
  /** Program sent on both output channels when playback starts. */
  const StartProgram: int := 123
  const LowestNote: int := 0
  const HighestNote: int := 127
  /** Pitch value the arpeggiator uses for "no note chosen". */
  const NoNote: int := -1

  datatype Option<T> = None | Some(value: T)

  /** One outgoing MIDI message. A note message carries the velocity it was
      sent with; a velocity of zero or less makes it a note-off. */
  datatype Event =
    | NoteOn(channel: int, note: int, velocity: int)
    | NoteOff(channel: int, note: int, velocity: int)
    | ProgramChange(channel: int, program: int)

  /** The message a note send produces: note-on exactly when the velocity is positive. */
  function NoteMessage(channel: int, note: int, velocity: int): (e: Event)
    ensures !e.ProgramChange? && e.channel == channel && e.note == note && e.velocity == velocity
    ensures e.NoteOn? <==> velocity > 0
  {
    if velocity > 0 then NoteOn(channel, note, velocity) else NoteOff(channel, note, velocity)
  }

  /** The messages of sending each hit, in order, on one channel. */
  function HitEvents(channel: int, hits: seq<Hit>): (r: seq<Event>)
    ensures |r| == |hits|
    ensures forall i :: 0 <= i < |hits| ==> r[i] == NoteMessage(channel, hits[i].note, hits[i].velocity)
  {
    if hits == [] then []
    else HitEvents(channel, hits[..|hits| - 1]) + [NoteMessage(channel, hits[|hits| - 1].note, hits[|hits| - 1].velocity)]
  }

  /** The messages that silence each note, in order, on one channel. */
  function NoteOffs(channel: int, notes: seq<int>): (r: seq<Event>)
    ensures |r| == |notes|
    ensures forall i :: 0 <= i < |notes| ==> r[i].NoteOff? && r[i] == NoteMessage(channel, notes[i], 0)
  {
    if notes == [] then []
    else NoteOffs(channel, notes[..|notes| - 1]) + [NoteMessage(channel, notes[|notes| - 1], 0)]
  }

  /** The notes of a list of hits, in order: what the engine records as sounding. */
  function HitNotes(hits: seq<Hit>): (r: seq<int>)
    ensures |r| == |hits|
    ensures forall i :: 0 <= i < |hits| ==> r[i] == hits[i].note
  {
    if hits == [] then [] else HitNotes(hits[..|hits| - 1]) + [hits[|hits| - 1].note]
  }

  lemma {:induction false} HitEventsAppend(channel: int, a: seq<Hit>, b: seq<Hit>)
    ensures HitEvents(channel, a + b) == HitEvents(channel, a) + HitEvents(channel, b)
    decreases |b|
  {
    if b == [] {
      assert a + b == a;
    } else {
      var b' := b[..|b| - 1];
      assert (a + b)[..|a + b| - 1] == a + b';
      assert (a + b)[|a + b| - 1] == b[|b| - 1];
      HitEventsAppend(channel, a, b');
    }
  }

  lemma {:induction false} HitNotesAppend(a: seq<Hit>, b: seq<Hit>)
    ensures HitNotes(a + b) == HitNotes(a) + HitNotes(b)
    decreases |b|
  {
    if b == [] {
      assert a + b == a;
    } else {
      var b' := b[..|b| - 1];
      assert (a + b)[..|a + b| - 1] == a + b';
      assert (a + b)[|a + b| - 1] == b[|b| - 1];
      HitNotesAppend(a, b');
    }
  }

  // ---------------------------------------------------------------------
  // Clock arithmetic

  /** The tick counter as the step logic sees it at a boundary: restarted
      once it has passed the limit. */
  function ResetTick(tick: int): (r: int)
    ensures r <= TickLimit
    ensures tick >= 0 ==> r >= 0
    ensures r == tick <==> tick <= TickLimit
    ensures tick > TickLimit ==> r == 0
  {
    if tick > TickLimit then 0 else tick
  }

  /** The size of a bar length: the remainder by a negative divisor lies
      below its magnitude, in C++ for a non-negative dividend as here. */
  function Abs(x: int): nat
  {
    if x < 0 then -x else x
  }

  /** The step of a bar of `steps` steps that a tick falls into. */
  function StepOf(tick: int, steps: int): (r: int)
    requires tick >= 0 && steps != 0
    ensures 0 <= r < Abs(steps)
    ensures steps > 0 ==> r < steps
  {
    (tick / PulsesPerStep) % steps
  }

  /** The k-th boundary plays step k of the bar, counting modulo the bar
      length, and the next boundary plays the following step. */
  lemma BoundaryStep(k: int, steps: int)
    requires k >= 0 && steps > 0
    ensures StepOf(PulsesPerStep * k, steps) == k % steps
    ensures StepOf(PulsesPerStep * (k + 1), steps) == (StepOf(PulsesPerStep * k, steps) + 1) % steps
  {
    assert (PulsesPerStep * k) / PulsesPerStep == k;
    assert (PulsesPerStep * (k + 1)) / PulsesPerStep == k + 1;
    ModSucc(k, steps);
  }

  lemma ModSucc(k: int, n: int)
    requires k >= 0 && n > 0
    ensures (k + 1) % n == (k % n + 1) % n
  {
    var q, r := k / n, k % n;
    assert k + 1 == q * n + (r + 1);
    if r + 1 < n {
      ModUnique(k + 1, n, q, r + 1);
      ModUnique(r + 1, n, 0, r + 1);
    } else {
      assert k + 1 == (q + 1) * n + 0;
      ModUnique(k + 1, n, q + 1, 0);
      ModUnique(r + 1, n, 1, 0);
    }
  }

  lemma MulAtLeast(k: int, n: int)
    requires k >= 1 && n > 0
    ensures k * n >= n
    decreases k
  {
    if k > 1 {
      MulAtLeast(k - 1, n);
      assert k * n == (k - 1) * n + n;
    }
  }

  /** Euclidean remainder is the unique r in [0, n) with a = q * n + r. */
  lemma ModUnique(a: int, n: int, q: int, r: int)
    requires n > 0 && 0 <= r < n && a == q * n + r
    ensures a % n == r
  {
    var q', r' := a / n, a % n;
    assert a == q' * n + r';
    assert (q - q') * n == r' - r;
    assert (q' - q) * n == r - r';
    if q - q' >= 1 {
      MulAtLeast(q - q', n);
    }
    if q' - q >= 1 {
      MulAtLeast(q' - q, n);
    }
    assert q == q';
  }

  lemma ModAddDivisor(a: int, n: int)
    requires a >= 0 && n > 0
    ensures (a + n) % n == a % n
  {
    var q, r := a / n, a % n;
    assert a + n == (q + 1) * n + r;
    ModUnique(a + n, n, q + 1, r);
  }

  /** Within one bar b of a style with `steps` steps, boundary j plays step
      j: the bar visits its steps in order, each once. */
  lemma BarVisitsStepsInOrder(b: nat, steps: int, j: int)
    requires steps > 0 && 0 <= j < steps
    ensures StepOf(PulsesPerStep * (b * steps + j), steps) == j
  {
    BoundaryStep(b * steps + j, steps);
    ModUnique(b * steps + j, steps, b, j);
  }

  /** The restart is not aligned with the bar: with 16 steps, the boundary
      at tick 24000 plays step 0 and the next one (tick 24006, restarted to
      0) plays step 0 again. */
  lemma RestartRepeatsFirstStep()
    ensures 24000 <= TickLimit && StepOf(ResetTick(24000), 16) == 0
    ensures 24006 > TickLimit && StepOf(ResetTick(24006), 16) == 0
    ensures StepOf(24006, 16) == 1
  {
  }

  // ---------------------------------------------------------------------
  // Drum step

  /** The velocity a positive drum step value is played with. */
  function HitVelocity(value: int): (v: int)
    requires value > 0
    ensures v > 0
    ensures value == 1 ==> v == DefaultHitVelocity
    ensures value != 1 ==> v == value
  {
    if value == 1 then DefaultHitVelocity else value
  }

  /** A track sounds at a step it has a value for, when that value is positive. */
  predicate Sounds(t: Track, step: nat)
  {
    step < |t.values| && t.values[step] > 0
  }

  function TrackHit(t: Track, step: nat): seq<Hit>
  {
    if Sounds(t, step) then [Hit(t.note, HitVelocity(t.values[step]))] else []
  }

  /** A track gives at most one hit at a step: one of its note, at the
      velocity its value gives, exactly when it sounds there. */
  lemma TrackHitWhenSounding(t: Track, step: nat)
    ensures |TrackHit(t, step)| <= 1
    ensures TrackHit(t, step) != [] <==> step < |t.values| && t.values[step] > 0
    ensures forall h :: h in TrackHit(t, step) ==> h.note == t.note && h.velocity > 0
    ensures Sounds(t, step) ==> TrackHit(t, step)[0].velocity == HitVelocity(t.values[step])
  {
  }

  /** The hits of a pattern's tracks at a step, in track order. */
  function TrackHits(tracks: seq<Track>, step: nat): (r: seq<Hit>)
    ensures |r| <= |tracks|
    ensures forall h :: h in r ==> h.velocity > 0
  {
    if tracks == [] then []
    else TrackHits(tracks[..|tracks| - 1], step) + TrackHit(tracks[|tracks| - 1], step)
  }

  lemma {:induction false} TrackHitsAppend(a: seq<Track>, b: seq<Track>, step: nat)
    ensures TrackHits(a + b, step) == TrackHits(a, step) + TrackHits(b, step)
    decreases |b|
  {
    if b == [] {
      assert a + b == a;
    } else {
      var b' := b[..|b| - 1];
      assert (a + b)[..|a + b| - 1] == a + b';
      assert (a + b)[|a + b| - 1] == b[|b| - 1];
      TrackHitsAppend(a, b', step);
    }
  }

  /** A hit comes out of a pattern exactly when some track of that note
      sounds at the step, at the velocity its value gives. */
  lemma {:induction false} TrackHitsExactly(tracks: seq<Track>, step: nat, h: Hit)
    ensures h in TrackHits(tracks, step) <==>
      exists i :: 0 <= i < |tracks| && tracks[i].note == h.note && Sounds(tracks[i], step)
                  && h.velocity == HitVelocity(tracks[i].values[step])
    decreases |tracks|
  {
    if tracks != [] {
      var init := tracks[..|tracks| - 1];
      var last := tracks[|tracks| - 1];
      TrackHitsExactly(init, step, h);
      if h in TrackHits(tracks, step) {
        if h !in TrackHits(init, step) {
          assert h in TrackHit(last, step);
          assert tracks[|tracks| - 1] == last;
        } else {
          var i :| 0 <= i < |init| && init[i].note == h.note && Sounds(init[i], step)
                   && h.velocity == HitVelocity(init[i].values[step]);
          assert tracks[i] == init[i];
        }
      }
      if exists i :: 0 <= i < |tracks| && tracks[i].note == h.note && Sounds(tracks[i], step)
                     && h.velocity == HitVelocity(tracks[i].values[step]) {
        var i :| 0 <= i < |tracks| && tracks[i].note == h.note && Sounds(tracks[i], step)
                 && h.velocity == HitVelocity(tracks[i].values[step]);
        if i < |init| {
          assert init[i] == tracks[i];
        } else {
          assert TrackHit(last, step) == [h];
        }
      }
    }
  }

  /** Tracks ascending by note give hits ascending by note, so no drum note
      is recorded as sounding twice. */
  lemma {:induction false} TrackHitsAscending(tracks: seq<Track>, step: nat)
    requires TracksAscending(tracks)
    ensures HitsAscending(TrackHits(tracks, step))
    decreases |tracks|
  {
    if tracks != [] {
      var init := tracks[..|tracks| - 1];
      var last := tracks[|tracks| - 1];
      TrackHitsAscending(init, step);
      var r := TrackHits(init, step);
      forall k | 0 <= k < |r| ensures r[k].note < last.note {
        TrackHitsExactly(init, step, r[k]);
        var i :| 0 <= i < |init| && init[i].note == r[k].note && Sounds(init[i], step)
                 && r[k].velocity == HitVelocity(init[i].values[step]);
        assert init[i] == tracks[i];
      }
    }
  }

  /** The result of a drum step: the hits sent, and the new pending
      resolution and fill selection. */
  datatype DrumOutcome = DrumOutcome(hits: seq<Hit>, pending: int, fill: int)

  /** A resolution plays instead of any pattern: at the first step after a
      fill, when the style has resolution hits. */
  predicate ResolutionDue(ds: DrumStyle, step: int, pending: int)
  {
    step == 0 && pending > 0 && |ds.resolution| > 0
  }

  /** The selected fill is one the style has. */
  predicate FillKnown(ds: DrumStyle, fill: int)
  {
    fill > 0 && fill in ds.fills
  }

  /** The pattern a non-resolution step plays: the selected fill when the
      style has it, otherwise the selected variation, if the style has it. */
  function SelectPattern(ds: DrumStyle, fill: int, variation: int): (r: Option<DrumPattern>)
    ensures FillKnown(ds, fill) ==> r == Some(ds.fills[fill])
    ensures !FillKnown(ds, fill) && variation in ds.variations ==> r == Some(ds.variations[variation])
    ensures r.None? <==> !FillKnown(ds, fill) && variation !in ds.variations
  {
    if FillKnown(ds, fill) then Some(ds.fills[fill])
    else if variation in ds.variations then Some(ds.variations[variation])
    else None
  }

  function PatternHits(p: Option<DrumPattern>, step: nat): seq<Hit>
  {
    match p
    case None => []
    case Some(pattern) => TrackHits(pattern.tracks, step)
  }

  /** One drum step of a style, given the step index, the pending
      resolution, and the selected fill and variation. */
  function DrumStep(ds: DrumStyle, step: nat, pending: int, fill: int, variation: int): (r: DrumOutcome)
    ensures ResolutionDue(ds, step, pending) ==> r.hits == ds.resolution && r.pending == 0 && r.fill == fill
    ensures !ResolutionDue(ds, step, pending) ==> forall h :: h in r.hits ==> h.velocity > 0
    ensures r.fill == fill || (r.fill == 0 && r.pending == fill && FillKnown(ds, fill) && step == ds.steps - 1)
    ensures r.pending == pending || (r.pending == 0 && step == 0)
         || (r.pending == fill && FillKnown(ds, fill) && step == ds.steps - 1)
    ensures step == 0 && pending > 0 && !(FillKnown(ds, fill) && ds.steps == 1) ==> r.pending == 0
  {
    if ResolutionDue(ds, step, pending) then DrumOutcome(ds.resolution, 0, fill)
    else
      var cleared := if step == 0 && pending > 0 then 0 else pending;
      var hits := PatternHits(SelectPattern(ds, fill, variation), step);
      if FillKnown(ds, fill) && step == ds.steps - 1 then DrumOutcome(hits, fill, 0)
      else DrumOutcome(hits, cleared, fill)
  }

  /** At the first step with a resolution pending and resolution hits in the
      style, exactly those hits are sent, no pattern plays, and the
      resolution is no longer pending. */
  lemma ResolutionStep(ds: DrumStyle, pending: int, fill: int, variation: int)
    requires pending > 0 && |ds.resolution| > 0
    ensures DrumStep(ds, 0, pending, fill, variation) == DrumOutcome(ds.resolution, 0, fill)
  {
  }

  /** A pending resolution is cleared at the first step of the bar even when
      the style has no resolution hits; it can only be armed again there by
      a known fill in a one-step bar. */
  lemma PendingClearedAtBarStart(ds: DrumStyle, pending: int, fill: int, variation: int)
    requires pending > 0
    ensures var o := DrumStep(ds, 0, pending, fill, variation);
      o.pending != 0 ==> ds.steps == 1 && FillKnown(ds, fill) && o.pending == fill && o.fill == 0
  {
  }

  /** On the last step of the bar a known fill plays, becomes the pending
      resolution, and is deselected. */
  lemma FillHandOff(ds: DrumStyle, step: nat, pending: int, fill: int, variation: int)
    requires FillKnown(ds, fill) && step == ds.steps - 1 && !ResolutionDue(ds, step, pending)
    ensures DrumStep(ds, step, pending, fill, variation)
         == DrumOutcome(TrackHits(ds.fills[fill].tracks, step), fill, 0)
  {
  }

  /** Before the last step a known fill plays and stays selected. */
  lemma FillBeforeBarEnd(ds: DrumStyle, step: nat, pending: int, fill: int, variation: int)
    requires FillKnown(ds, fill) && step != ds.steps - 1 && !ResolutionDue(ds, step, pending)
    ensures var o := DrumStep(ds, step, pending, fill, variation);
      o.hits == TrackHits(ds.fills[fill].tracks, step) && o.fill == fill
  {
  }

  /** A fill id the style does not have (or none, id 0 or less) falls back to
      the selected variation, or to silence when that is missing too, and
      leaves the fill selection alone. */
  lemma UnknownFillFallsBack(ds: DrumStyle, step: nat, pending: int, fill: int, variation: int)
    requires !FillKnown(ds, fill) && !ResolutionDue(ds, step, pending)
    ensures var o := DrumStep(ds, step, pending, fill, variation);
      && o.fill == fill
      && o.pending == (if step == 0 && pending > 0 then 0 else pending)
      && o.hits == (if variation in ds.variations then TrackHits(ds.variations[variation].tracks, step) else [])
  {
  }

  /** Every pattern hit has a positive velocity: 100 for a step value of 1,
      the value itself otherwise; so every pattern send is a note-on. */
  lemma PatternHitsAreNoteOns(ds: DrumStyle, step: nat, pending: int, fill: int, variation: int, channel: int)
    requires !ResolutionDue(ds, step, pending)
    ensures var o := DrumStep(ds, step, pending, fill, variation);
      forall i :: 0 <= i < |o.hits| ==> HitEvents(channel, o.hits)[i].NoteOn?
  {
    var o := DrumStep(ds, step, pending, fill, variation);
    forall i | 0 <= i < |o.hits| ensures HitEvents(channel, o.hits)[i].NoteOn? {
      assert o.hits[i] in o.hits;
    }
  }

  /** The notes a drum step records are distinct. */
  lemma DrumNotesDistinct(ds: DrumStyle, step: nat, pending: int, fill: int, variation: int)
    requires DrumStyleValid(ds)
    ensures HitsAscending(DrumStep(ds, step, pending, fill, variation).hits)
  {
    if !ResolutionDue(ds, step, pending) {
      match SelectPattern(ds, fill, variation)
      case None =>
      case Some(p) => TrackHitsAscending(p.tracks, step);
    }
  }

  /** Fill F on the last step, then the next bar's first step with
      resolution {60: 100}: the fill is handed over and exactly
      note 60 at velocity 100 is played, whatever the patterns hold. */
  lemma FillThenResolution(ds: DrumStyle, fill: int, variation: int)
    requires DrumStyleValid(ds) && ds.steps > 0 && FillKnown(ds, fill) && ds.resolution == [Hit(60, 100)]
    ensures var first := DrumStep(ds, ds.steps - 1, 0, fill, variation);
      var next := DrumStep(ds, 0, first.pending, first.fill, variation);
      && first.pending == fill && first.fill == 0
      && next.hits == [Hit(60, 100)] && next.pending == 0
      && HitEvents(ChanOutDrums, next.hits) == [NoteOn(ChanOutDrums, 60, 100)]
  {
  }

  // ---------------------------------------------------------------------
  // Accompaniment step

  function ClampNote(n: int): (r: int)
    ensures LowestNote <= r <= HighestNote
    ensures LowestNote <= n <= HighestNote ==> r == n
    ensures n < LowestNote ==> r == LowestNote
    ensures n > HighestNote ==> r == HighestNote
  {
    var low := if n < LowestNote then LowestNote else n;
    if low > HighestNote then HighestNote else low
  }

  /** A held pitch moved by whole octaves and kept in the MIDI note range. */
  function Transpose(note: int, octave: int): (r: int)
    ensures LowestNote <= r <= HighestNote
    ensures LowestNote <= note + 12 * octave <= HighestNote ==> r == note + 12 * octave
  {
    ClampNote(note + 12 * octave)
  }

  /** The position an arp-once trigger value picks: plain wrap-around. */
  function ArpOnceIndex(value: int, count: int): (i: int)
    requires value >= 1 && count >= 1
    ensures 0 <= i < count
    ensures value <= count ==> i == value - 1
  {
    (value - 1) % count
  }

  /** The position an arp-loop trigger value picks: up and down the held
      pitches without repeating the two ends (a cycle of 2n - 2). */
  function ArpLoopIndex(value: int, count: int): (i: int)
    requires value >= 1 && count >= 1
    ensures 0 <= i < count
    ensures count == 1 ==> i == 0
  {
    if count == 1 then 0
    else
      var cycle := 2 * count - 2;
      var pos := (value - 1) % cycle;
      if pos < count then pos else cycle - pos
  }

  /** Over one cycle, arp-loop goes up through every pitch and back down
      through the inner ones. */
  lemma ArpLoopUpDown(value: int, count: int)
    requires count >= 2 && 1 <= value <= 2 * count - 2
    ensures value <= count ==> ArpLoopIndex(value, count) == value - 1
    ensures value > count ==> ArpLoopIndex(value, count) == 2 * count - 1 - value
  {
    ModUnique(value - 1, 2 * count - 2, 0, value - 1);
  }

  /** Arp-loop repeats after 2n - 2 trigger values, arp-once after n. */
  lemma ArpPeriodic(value: int, count: int)
    requires value >= 1 && count >= 1
    ensures ArpOnceIndex(value + count, count) == ArpOnceIndex(value, count)
    ensures count >= 2 ==> ArpLoopIndex(value + 2 * count - 2, count) == ArpLoopIndex(value, count)
  {
    ModAddDivisor(value - 1, count);
    if count >= 2 {
      ModAddDivisor(value - 1, 2 * count - 2);
    }
  }

  /** Arp-loop over [60, 64, 67] with trigger values 1 to 6 plays
      60, 64, 67, 64, 60, 64. */
  lemma ArpLoopExample()
    ensures var held := [60, 64, 67];
      [held[ArpLoopIndex(1, 3)], held[ArpLoopIndex(2, 3)], held[ArpLoopIndex(3, 3)],
       held[ArpLoopIndex(4, 3)], held[ArpLoopIndex(5, 3)], held[ArpLoopIndex(6, 3)]]
      == [60, 64, 67, 64, 60, 64]
  {
  }

  /** Chord mode: every held pitch, transposed, at the pattern velocity. */
  function ChordHits(held: seq<int>, octave: int, velocity: int): (r: seq<Hit>)
    ensures |r| == |held|
    ensures forall i :: 0 <= i < |held| ==> r[i] == Hit(Transpose(held[i], octave), velocity)
  {
    if held == [] then []
    else ChordHits(held[..|held| - 1], octave, velocity) + [Hit(Transpose(held[|held| - 1], octave), velocity)]
  }

  /** An arpeggio mode: the picked pitch, unless it is the "no note" value. */
  function ArpHit(note: int, octave: int, velocity: int): (r: seq<Hit>)
    ensures r == [] <==> note == NoNote
    ensures |r| <= 1
    ensures forall h :: h in r ==> h == Hit(Transpose(note, octave), velocity)
  {
    if note == NoNote then [] else [Hit(Transpose(note, octave), velocity)]
  }

  /** The trigger value of a pattern at a tick; 0 (rest) past the pattern's end. */
  function TriggerAt(ap: AcompPattern, tick: int): (r: int)
    requires AcompPatternValid(ap) && tick >= 0
    ensures IsArpeggio(ap.mode) ==> r >= 0
    ensures StepOf(tick, ap.steps) >= |ap.pattern| ==> r == 0
    ensures StepOf(tick, ap.steps) < |ap.pattern| ==> r == ap.pattern[StepOf(tick, ap.steps)]
    ensures r != 0 ==> r in ap.pattern
  {
    var step := StepOf(tick, ap.steps);
    if step < |ap.pattern| then ap.pattern[step] else 0
  }

  /** The accompaniment hits of one step: style, selected pattern id, held
      pitches, octave shift and the tick of the boundary. */
  function AcompStep(style: AcompStyle, patternId: int, held: seq<int>, octave: int, tick: int): (r: seq<Hit>)
    requires AcompStyleValid(style) && tick >= 0
    ensures |r| <= |held|
    ensures r != [] ==> patternId in style.patterns && TriggerAt(style.patterns[patternId], tick) != 0
    ensures forall h :: h in r ==> LowestNote <= h.note <= HighestNote
  {
    if patternId !in style.patterns || |held| == 0 then []
    else
      var ap := style.patterns[patternId];
      var value := TriggerAt(ap, tick);
      if value == 0 then []
      else
        match ModeOf(ap.mode)
        case Chord => ChordHits(held, octave, ap.velocity)
        case ArpOnce => ArpHit(held[ArpOnceIndex(value, |held|)], octave, ap.velocity)
        case ArpLoop => ArpHit(held[ArpLoopIndex(value, |held|)], octave, ap.velocity)
        case Other => []
  }

  /** The accompaniment is silent exactly when the pattern is missing, no
      pitch is held, the step rests (or lies past the pattern), the mode is
      unknown, or an arpeggio picks the "no note" value. */
  lemma AcompSilence(style: AcompStyle, patternId: int, held: seq<int>, octave: int, tick: int)
    requires AcompStyleValid(style) && tick >= 0
    ensures AcompStep(style, patternId, held, octave, tick) == [] <==>
      || patternId !in style.patterns
      || |held| == 0
      || TriggerAt(style.patterns[patternId], tick) == 0
      || ModeOf(style.patterns[patternId].mode) == Other
      || (ModeOf(style.patterns[patternId].mode) == ArpOnce
          && held[ArpOnceIndex(TriggerAt(style.patterns[patternId], tick), |held|)] == NoNote)
      || (ModeOf(style.patterns[patternId].mode) == ArpLoop
          && held[ArpLoopIndex(TriggerAt(style.patterns[patternId], tick), |held|)] == NoNote)
  {
  }

  /** Every accompaniment hit is in the MIDI note range at the pattern velocity. */
  lemma AcompHitsInRange(style: AcompStyle, patternId: int, held: seq<int>, octave: int, tick: int)
    requires AcompStyleValid(style) && tick >= 0
    ensures forall h :: h in AcompStep(style, patternId, held, octave, tick) ==>
      && LowestNote <= h.note <= HighestNote
      && patternId in style.patterns && h.velocity == style.patterns[patternId].velocity
  {
    var r := AcompStep(style, patternId, held, octave, tick);
    forall h | h in r
      ensures LowestNote <= h.note <= HighestNote
      ensures patternId in style.patterns && h.velocity == style.patterns[patternId].velocity
    {
      var ap := style.patterns[patternId];
      if ModeOf(ap.mode) == Chord {
        var i :| 0 <= i < |r| && r[i] == h;
      }
    }
  }

  /** A sounding chord step voices every held pitch, in ascending order. */
  lemma ChordVoicesAllHeld(style: AcompStyle, patternId: int, held: seq<int>, octave: int, tick: int)
    requires AcompStyleValid(style) && tick >= 0
    requires patternId in style.patterns && |held| > 0
    requires ModeOf(style.patterns[patternId].mode) == Chord
    requires TriggerAt(style.patterns[patternId], tick) != 0
    ensures var r := AcompStep(style, patternId, held, octave, tick);
      && |r| == |held|
      && forall i :: 0 <= i < |held| ==>
           r[i] == Hit(Transpose(held[i], octave), style.patterns[patternId].velocity)
  {
  }

  /** A sounding arpeggio step plays exactly one pitch: the one its trigger
      value picks, transposed. */
  lemma ArpPlaysOne(style: AcompStyle, patternId: int, held: seq<int>, octave: int, tick: int)
    requires AcompStyleValid(style) && tick >= 0
    requires patternId in style.patterns && |held| > 0
    requires forall i :: 0 <= i < |held| ==> LowestNote <= held[i] <= HighestNote
    requires ModeOf(style.patterns[patternId].mode) in {ArpOnce, ArpLoop}
    requires TriggerAt(style.patterns[patternId], tick) != 0
    ensures var ap := style.patterns[patternId];
      var value := TriggerAt(ap, tick);
      var index := if ModeOf(ap.mode) == ArpOnce then ArpOnceIndex(value, |held|) else ArpLoopIndex(value, |held|);
      AcompStep(style, patternId, held, octave, tick) == [Hit(Transpose(held[index], octave), ap.velocity)]
  {
  }

  /** With one held pitch, both arpeggio modes always pick it. */
  lemma SingleHeldAlwaysPicked(value: int)
    requires value >= 1
    ensures ArpOnceIndex(value, 1) == 0 && ArpLoopIndex(value, 1) == 0
  {
  }

  /** Chord step with octave shift +1 over [60, 64, 67] sends 72, 76 and 79. */
  lemma ChordExample(velocity: int)
    ensures ChordHits([60, 64, 67], 1, velocity) == [Hit(72, velocity), Hit(76, velocity), Hit(79, velocity)]
  {
  }
}
